// What the code cannot decide for itself: timers, cancellation and the outcome of an
// operating system call. A method that asks gets an answer about which nothing is known.
module Environment {

  method Choice() returns (answer: bool) {
    answer := *;
  }
}
