// Publishing a finished download (crates/gunda-http/src/finalize.rs).
module Publication {
  import opened Basics
  import opened Text
  import opened FileNames
  import opened Environment
  import Utf8

  /** What a name in the download directory stands for. */
  datatype Node = File(content: Bytes) | Other

  datatype Policy = Fail | Rename | Overwrite

  datatype PublishError = DifferentDirectory | InvalidFilename | InvalidPartial | FileError | NameAttemptsExhausted

  function Attempts(policy: Policy): nat {
    if policy.Fail? then 1 else 1000
  }

  /** The name asked for, or one of the program's own. */
  function Wanted(preferred: Option<string>, id: nat): string {
    match preferred
    case Some(name) => name
    case None => "download-" + Print(id) + ".bin"
  }

  class Directory {
    var entries: map<string, Node>

    constructor ()
      ensures entries == map[]
    {
      entries := map[];
    }

    /** Gives a file a second name; never takes a name that is in use. */
    method HardLink(from: string, to: string) returns (r: Result<(), PublishError>, taken: bool)
      requires from in entries
      modifies this
      ensures r.Ok? ==> to !in old(entries) && entries == old(entries)[to := old(entries[from])]
      ensures r.Err? ==> entries == old(entries)
      ensures taken ==> r.Err? && to in entries
    {
      taken := to in entries;
      var works := Choice();
      if taken || !works {
        return Err(FileError), taken;
      }
      entries := entries[to := entries[from]];
      r := Ok(());
    }

    method Remove(name: string) returns (ok: bool)
      modifies this
      ensures entries == if ok then map n | n in old(entries) && n != name :: old(entries)[n] else old(entries)
    {
      ok := Choice();
      if ok {
        entries := map n | n in entries && n != name :: entries[n];
      }
    }

    method RenameOver(from: string, to: string) returns (ok: bool)
      requires from in entries
      modifies this
      ensures entries == if ok then Moved(old(entries), from, to) else old(entries)
    {
      ok := Choice();
      if ok {
        entries := Moved(entries, from, to);
      }
    }

    /**
     * Publishes the staging file of download `id`, of which `written` bytes were written. `samePlace` and
     * `sameFile` say what the checks of its directory and of its identity found.
     */
    method Publish(id: nat, written: nat, preferred: Option<string>, policy: Policy, samePlace: bool, sameFile: bool)
      returns (r: Result<string, PublishError>)
      modifies this
      ensures r.Err? ==> entries == old(entries)
      ensures r.Ok? ==> Published(old(entries), entries, PartialName(id), written, r.value)
      ensures r.Ok? && !policy.Overwrite? ==> FirstFree(old(entries), Wanted(preferred, id), Attempts(policy), r.value)
      ensures r.Ok? && policy.Overwrite? ==> r.value == Wanted(preferred, id)
      ensures r == Err(NameAttemptsExhausted) ==>
                policy.Rename? && forall k :: 0 <= k < 1000 ==> CandidateName(Wanted(preferred, id), k) in old(entries)
      ensures r == Err(InvalidFilename) <==> samePlace && !IsValidName(Wanted(preferred, id))
      ensures r.Ok? ==> samePlace && sameFile && IsValidName(Wanted(preferred, id))
    {
      hide Published, FirstFree, IsValidName, CandidateName, PartialName, Print;
      var staging := PartialName(id);
      if !samePlace {
        return Err(DifferentDirectory);
      }
      var filename := Wanted(preferred, id);
      if !IsValidName(filename) {
        return Err(InvalidFilename);
      }
      var readable := Choice();
      if !readable || staging !in entries {
        return Err(FileError);
      }
      if !entries[staging].File? || |entries[staging].content| != written || !sameFile {
        return Err(InvalidPartial);
      }
      NeverStaged(filename, id, 0);
      if policy.Overwrite? {
        var moved := RenameOver(staging, filename);
        if !moved {
          return Err(FileError);
        }
        MovedIsPublished(old(entries), staging, filename, written);
        return Ok(filename);
      }
      for attempt := 0 to Attempts(policy)
        invariant entries == old(entries)
        invariant forall k :: 0 <= k < attempt ==> CandidateName(filename, k) in old(entries)
        invariant policy.Fail? ==> attempt == 0
      {
        var candidate := CandidateName(filename, attempt);
        NeverStaged(filename, id, attempt);
        var linked, taken := HardLink(staging, candidate);
        if linked.Ok? {
          ghost var both := entries;
          var removed := Remove(staging);
          LinkedIsPublished(old(entries), both, entries, staging, candidate, written, removed);
          FoundFree(old(entries), filename, Attempts(policy), attempt);
          return Ok(candidate);
        }
        if !(taken && policy.Rename?) {
          return Err(FileError);
        }
      }
      r := Err(NameAttemptsExhausted);
    }
  }

  function Moved(entries: map<string, Node>, from: string, to: string): (r: map<string, Node>)
    requires from in entries
  {
    var rest := map n | n in entries && n != from :: entries[n];
    rest[to := entries[from]]
  }

  /**
   * The staged bytes, all of them, are there under `name`; the staging name may be left over; and every other
   * name stands for what it stood for.
   */
  ghost predicate Published(before: map<string, Node>, after: map<string, Node>, staging: string, written: nat, name: string) {
    && name != staging && staging in before && before[staging].File? && |before[staging].content| == written
    && name in after && after[name] == before[staging]
    && (staging in after ==> after[staging] == before[staging])
    && forall n :: n != name && n != staging ==> (n in after <==> n in before) && (n in before ==> after[n] == before[n])
  }

  /** The first of the candidate names that is not in use. */
  ghost predicate FirstFree(before: map<string, Node>, filename: string, attempts: nat, name: string) {
    name !in before
    && exists k :: IsAttempt(before, filename, attempts, name, k)
  }

  ghost predicate IsAttempt(before: map<string, Node>, filename: string, attempts: nat, name: string, k: nat) {
    k < attempts && name == CandidateName(filename, k) && forall j :: 0 <= j < k ==> CandidateName(filename, j) in before
  }

  lemma NeverStaged(filename: string, id: nat, attempt: nat)
    requires IsValidName(filename)
    ensures CandidateName(filename, attempt) != PartialName(id)
    ensures attempt == 0 ==> filename != PartialName(id)
  {
    hide KeepsRules, PartialName;
    CandidateKeepsRules(filename, attempt);
    NeverAStagingName(CandidateName(filename, attempt), id);
  }

  lemma MovedIsPublished(before: map<string, Node>, staging: string, name: string, written: nat)
    requires staging in before && before[staging].File? && |before[staging].content| == written && name != staging
    ensures Published(before, Moved(before, staging, name), staging, written, name)
  {
  }

  lemma LinkedIsPublished(before: map<string, Node>, both: map<string, Node>, after: map<string, Node>,
                          staging: string, name: string, written: nat, removed: bool)
    requires staging in before && before[staging].File? && |before[staging].content| == written && name != staging
    requires both == before[name := before[staging]]
    requires after == if removed then map n | n in both && n != staging :: both[n] else both
    ensures Published(before, after, staging, written, name)
  {
  }

  lemma FoundFree(before: map<string, Node>, filename: string, attempts: nat, k: nat)
    requires k < attempts && CandidateName(filename, k) !in before
    requires forall j :: 0 <= j < k ==> CandidateName(filename, j) in before
    ensures FirstFree(before, filename, attempts, CandidateName(filename, k))
  {
    hide CandidateName;
    assert IsAttempt(before, filename, attempts, CandidateName(filename, k), k);
  }

  /** Unless told to overwrite, publishing destroys nothing: whatever had a name keeps its name and its content. */
  lemma PublishingDestroysNothing(before: map<string, Node>, after: map<string, Node>, staging: string, written: nat,
                                  filename: string, attempts: nat, name: string)
    requires Published(before, after, staging, written, name) && FirstFree(before, filename, attempts, name)
    ensures forall n :: n in before && n != staging ==> n in after && after[n] == before[n]
    ensures exists n :: n in after && after[n] == before[staging]
  {
  }

  /** There is one name it can be: the choice among the candidates is settled by what is in the directory. */
  lemma FirstFreeIsUnique(before: map<string, Node>, filename: string, attempts: nat, a: string, b: string)
    requires FirstFree(before, filename, attempts, a) && FirstFree(before, filename, attempts, b)
    ensures a == b
  {
  }

  /** A published name keeps every rule, within 206 bytes. */
  lemma PublishedNameIsSafe(before: map<string, Node>, filename: string, attempts: nat, name: string)
    requires IsValidName(filename) && attempts <= 1000 && FirstFree(before, filename, attempts, name)
    ensures KeepsRules(name) && Utf8.Length(name) <= 206
  {
    hide CandidateName, KeepsRules;
    var k :| IsAttempt(before, filename, attempts, name, k);
    CandidateKeepsRules(filename, k);
    if k > 0 {
      CandidateLength(filename, k);
    } else {
      FirstCandidate(filename);
    }
  }

  lemma FirstCandidate(filename: string)
    ensures CandidateName(filename, 0) == filename
  {
  }
}
