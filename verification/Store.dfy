// What can go wrong with a store (crates/gunda-core/src/application/repository.rs).
module Stores {

  datatype StoreError = Internal | InvalidData | NotFound | ConstraintViolation
}
