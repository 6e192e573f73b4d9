/** Replacing a private email address: stop and remove the old one, then create its replacement, against
    a remote account that may apply a request and lose the answer, by a program that may die anywhere
    and is run again on the same state file. */
module PrivateEmail {
  import opened Options
  import opened Text

  datatype Alias = Alias(address: string, id: string, active: Option<bool>)

  /** privateEmailReplacementCheckpoint. */
  datatype Record = Record(target: string, id: string, candidate: string, createStarted: bool, completed: bool)

  datatype Operation =
    | FetchManage
    | ListAliases
    | Stop(id: string, address: string)
    | Remove(id: string, address: string)
    | Generate
    | Create(address: string)

  /** What the outside sees, in order: requests that change the account, listings that came back, the statuses of the
      creations that came back as errors, 0 if there was none, and writes of the state file. */
  datatype Action = Sent(op: Operation) | Listed(aliases: seq<Alias>) | Answered(status: int) | Saved(record: Record)

  datatype Reply = Done(aliases: seq<Alias>, address: string) | Rejected(status: int) | Failed

  predicate EqualFold(a: string, b: string) { Lower(a) == Lower(b) }

  function Find(aliases: seq<Alias>, email: string): Option<Alias> {
    if aliases == [] then None
    else if EqualFold(aliases[0].address, email) then Some(aliases[0])
    else Find(aliases[1..], email)
  }

  predicate Mutates(op: Operation) { op.Stop? || op.Remove? || op.Create? }

  /** What the program takes for the answer that nothing was created. */
  predicate DefiniteRejection(status: int) { 400 <= status < 500 && status != 408 }

  /** The two addresses agree letter by letter up to case. */
  predicate SameAddress(a: string, b: string) {
    |a| == |b| && forall i :: 0 <= i < |a| ==> SameLetter(a[i], b[i])
  }

  // ---------------------------------------------------------------- what a history may contain

  function Creates(log: seq<Action>): nat {
    if log == [] then 0
    else Creates(log[..|log| - 1]) + (if log[|log| - 1].Sent? && log[|log| - 1].op.Create? then 1 else 0)
  }

  /** An answer with a client error that is not a timeout: only such a one says that nothing was created. */
  predicate Refuses(a: Action) { a.Answered? && (400 <= a.status <= 407 || 409 <= a.status <= 499) }

  lemma {:induction false} RefusalIs(status: int)
    ensures DefiniteRejection(status) <==> Refuses(Answered(status))
  {}

  function Rejections(log: seq<Action>): nat {
    if log == [] then 0 else Rejections(log[..|log| - 1]) + (if Refuses(log[|log| - 1]) then 1 else 0)
  }

  function LastListing(log: seq<Action>): Option<seq<Alias>> {
    if log == [] then None
    else if log[|log| - 1].Listed? then Some(log[|log| - 1].aliases)
    else LastListing(log[..|log| - 1])
  }

  /** The latest listing shows neither address. */
  predicate BothAbsent(listing: Option<seq<Alias>>, target: string, candidate: string) {
    listing.Some? && Find(listing.value, target).None? && Find(listing.value, candidate).None?
  }

  /** The latest listing shows the candidate active and the target gone. */
  predicate Replaced(listing: Option<seq<Alias>>, target: string, candidate: string) {
    && listing.Some? && Find(listing.value, target).None?
    && Find(listing.value, candidate).Some? && Find(listing.value, candidate).value.active == Some(true)
  }

  /** The latest listing shows the address, under that id. */
  predicate Present(listing: Option<seq<Alias>>, address: string, id: string) {
    listing.Some? && Find(listing.value, address).Some? && Find(listing.value, address).value.id == id
  }

  /** May this action follow this history? Stopping and removing only what the latest listing still
      shows, creation only when it shows both addresses absent and every earlier one was refused, a refusal only of
      a creation, completion only when the listing shows the replacement. */
  predicate Allowed(log: seq<Action>, a: Action, target: string) {
    && (a.Sent? && a.op.Stop? ==>
      && Present(LastListing(log), a.op.address, a.op.id)
      && Find(LastListing(log).value, a.op.address).value.active != Some(false))
    && (a.Sent? && a.op.Remove? ==> Present(LastListing(log), a.op.address, a.op.id))
    && (a.Sent? && a.op.Create? ==>
      BothAbsent(LastListing(log), target, a.op.address) && Creates(log) <= Rejections(log))
    && (Refuses(a) ==> Rejections(log) < Creates(log))
    && (a.Saved? && a.record.completed ==> Replaced(LastListing(log), target, a.record.candidate))
  }

  ghost predicate Disciplined(log: seq<Action>, target: string) {
    forall i :: 0 <= i < |log| ==> Allowed(log[..i], log[i], target)
  }

  predicate OnlyAbout(a: Action, r: Record) {
    match a
    case Sent(Stop(id, address)) => address == r.target && (id == "" || id == r.id)
    case Sent(Remove(id, address)) => address == r.target && (id == "" || id == r.id)
    case Sent(Create(address)) => address == r.candidate && address != ""
    case Saved(s) => s.target == r.target && (s.id == "" || s.id == r.id) &&
      (s.candidate == "" || s.candidate == r.candidate)
    case _ => true
  }

  /** The state file and the history of all runs so far agree: at most one creation beyond the definite
      rejections, and then the file says so; only one address was ever stopped, removed or created. */
  ghost predicate Consistent(disk: Option<Record>, log: seq<Action>) {
    match disk
    case None => forall a :: a in log ==> a.Listed?
    case Some(r) =>
      && Creates(log) <= Rejections(log) + (if r.createStarted then 1 else 0)
      && (forall a :: a in log ==> OnlyAbout(a, r))
      && Disciplined(log, r.target)
      && (r.completed ==> r.candidate != "")
  }

  lemma {:induction false} Append(log: seq<Action>, a: Action)
    ensures Creates(log + [a]) == Creates(log) + (if a.Sent? && a.op.Create? then 1 else 0)
    ensures Rejections(log + [a]) == Rejections(log) + (if Refuses(a) then 1 else 0)
    ensures LastListing(log + [a]) == if a.Listed? then Some(a.aliases) else LastListing(log)
    ensures forall t :: Disciplined(log, t) && Allowed(log, a, t) ==> Disciplined(log + [a], t)
  {
    assert (log + [a])[..|log|] == log;
    forall t | Disciplined(log, t) && Allowed(log, a, t) ensures Disciplined(log + [a], t) {
      forall i | 0 <= i < |log + [a]| ensures Allowed((log + [a])[..i], (log + [a])[i], t) {
        if i < |log| { assert (log + [a])[..i] == log[..i]; }
      }
    }
  }

  /** One more action keeps the file and the history consistent. */
  lemma {:induction false} AppendKeeps(disk: Option<Record>, log: seq<Action>, a: Action)
    requires disk.Some? && Consistent(disk, log)
    requires OnlyAbout(a, disk.value) && Allowed(log, a, disk.value.target)
    requires a.Sent? && a.op.Create? ==> disk.value.createStarted && Creates(log) <= Rejections(log)
    ensures Consistent(disk, log + [a])
    ensures Creates(log + [a]) == Creates(log) + (if a.Sent? && a.op.Create? then 1 else 0)
    ensures Rejections(log + [a]) == Rejections(log) + (if Refuses(a) then 1 else 0)
    ensures LastListing(log + [a]) == if a.Listed? then Some(a.aliases) else LastListing(log)
  {
    hide EqualFold, Allowed, OnlyAbout, BothAbsent, Replaced;
    Append(log, a);
  }

  lemma {:induction false} RejectionsFollow(log: seq<Action>, target: string)
    requires Disciplined(log, target)
    ensures Rejections(log) <= Creates(log)
  {
    hide Allowed;
    if log != [] {
      var n := |log| - 1;
      assert forall i :: 0 <= i < n ==> log[..n][i] == log[i] && log[..n][..i] == log[..i];
      RejectionsFollow(log[..n], target);
      assert Allowed(log[..n], log[n], target);
      OneRefusal(log[..n], log[n], target);
    }
  }

  lemma {:induction false} OneRefusal(log: seq<Action>, a: Action, target: string)
    requires Allowed(log, a, target)
    ensures Refuses(a) ==> Rejections(log) < Creates(log)
  {}

  lemma {:induction false} ConsistentCounts(disk: Option<Record>, log: seq<Action>)
    requires disk.Some? && Consistent(disk, log)
    ensures Rejections(log) <= Creates(log)
  {
    hide Allowed, OnlyAbout;
    RejectionsFollow(log, disk.value.target);
  }

  // ---------------------------------------------------------------- the program

  class Debugger {
    var disk: Option<Record>        // the state file
    var checkpoint: Option<Record>  // the record in memory
    ghost var log: seq<Action>

    constructor ()
      ensures disk == None && log == []
    {
      disk, checkpoint, log := None, None, [];
    }

    /** persistCheckpoint: an atomic write that may fail, or be the last thing the program does. */
    method PersistCheckpoint() returns (ok: bool)
      requires checkpoint.Some? && Consistent(disk, log)
      requires Consistent(checkpoint, log + [Saved(checkpoint.value)])
      modifies this`disk, this`log
      ensures Consistent(disk, log)
      ensures (disk == old(disk) && log == old(log)) ||
              (disk == checkpoint && log == old(log) + [Saved(checkpoint.value)])
      ensures ok ==> disk == checkpoint && log == old(log) + [Saved(checkpoint.value)]
    {
      var written: bool, survived: bool := *, *;
      if written {
        disk := checkpoint;
        log := log + [Saved(checkpoint.value)];
      }
      ok := written && survived;
    }

    /** findPrivateEmail. */
    static method FindPrivateEmail(aliases: seq<Alias>, email: string) returns (found: Option<Alias>)
      ensures found == Find(aliases, email)
      ensures found.Some? ==> found.value in aliases && EqualFold(found.value.address, email)
      ensures found.None? ==> forall a :: a in aliases ==> !EqualFold(a.address, email)
      ensures found.Some? ==> SameAddress(found.value.address, email)
      ensures found.None? ==> forall a :: a in aliases ==> !SameAddress(a.address, email)
    {
      FoundIs(aliases, email);
      for i := 0 to |aliases|
        invariant Find(aliases, email) == Find(aliases[i..], email)
        invariant forall j :: 0 <= j < i ==> !EqualFold(aliases[j].address, email)
      {
        if EqualFold(aliases[i].address, email) {
          return Some(aliases[i]);
        }
      }
      return None;
    }

    /** execute: requests that change the account are sent once; others may be retried while a proxy is
        pending. A successful answer is followed by a write of the state file. */
    method Execute(op: Operation) returns (reply: Reply)
      requires checkpoint.Some? && disk == checkpoint && Consistent(disk, log)
      requires !checkpoint.value.completed
      requires op.Stop? || op.Remove? ==>
               OnlyAbout(Sent(op), checkpoint.value) && Allowed(log, Sent(op), checkpoint.value.target)
      requires op.Create? ==>
        && op.address == checkpoint.value.candidate && op.address != "" && checkpoint.value.createStarted
        && Creates(log) <= Rejections(log) && BothAbsent(LastListing(log), checkpoint.value.target, op.address)
      modifies this`disk, this`log
      ensures disk == checkpoint && Consistent(disk, log)
      ensures old(log) <= log
      ensures forall i :: |old(log)| <= i < |log| && log[i].Sent? ==> Mutates(op) && log[i] == Sent(op)
      ensures forall i, j :: |old(log)| <= i < j < |log| ==> !log[i].Sent? || !log[j].Sent?
      ensures !op.ListAliases? ==> LastListing(log) == LastListing(old(log))
      ensures op.ListAliases? && reply.Done? ==> LastListing(log) == Some(reply.aliases)
      ensures !op.Create? ==> Creates(log) == Creates(old(log)) && Rejections(log) == Rejections(old(log))
      ensures op.Create? && reply.Rejected? ==> log == old(log) + [Sent(op), Answered(reply.status)]
      ensures (op.Stop? || op.Remove? || op.Create?) && !reply.Failed? ==>
              |old(log)| < |log| && log[|old(log)|] == Sent(op)
      ensures op.Create? && reply.Rejected? && Refuses(Answered(reply.status)) ==> Creates(log) <= Rejections(log)
    {
      hide Consistent, Creates, Rejections, LastListing, BothAbsent, EqualFold, Present;
      reply := Failed;
      ConsistentCounts(disk, log);
      var attempts: nat := *;
      while true
        invariant reply.Failed? && disk == checkpoint && Consistent(disk, log) && old(log) <= log
        invariant log == old(log)
        invariant !op.ListAliases? ==> LastListing(log) == LastListing(old(log))
        invariant Creates(log) == Creates(old(log)) && Rejections(log) == Rejections(old(log))
        decreases attempts
      {
        var reached: bool, answered: bool, pending: bool := *, *, *;
        if !reached { return; }
        if Mutates(op) {
          AppendKeeps(disk, log, Sent(op));
          log := log + [Sent(op)];
        }
        if answered { break; }
        var status: int := *;
        if op.Create? {
          AppendKeeps(disk, log, Answered(status));
          log := log + [Answered(status)];
        }
        if !pending || Mutates(op) || attempts == 0 { return Rejected(status); }
        attempts := attempts - 1;
      }
      var aliases: seq<Alias>, address: string := *, *;
      if op.ListAliases? {
        AppendKeeps(disk, log, Listed(aliases));
        log := log + [Listed(aliases)];
      }
      AppendKeeps(disk, log, Saved(checkpoint.value));
      var saved := PersistCheckpoint();
      if saved { reply := Done(aliases, address); }
    }

    /** markCheckpoint. */
    method Mark(record: Record) returns (ok: bool)
      requires Consistent(disk, log)
      requires Consistent(Some(record), log + [Saved(record)])
      modifies this
      ensures Consistent(disk, log) && checkpoint == Some(record)
      ensures ok ==> disk == checkpoint && log == old(log) + [Saved(record)]
    {
      checkpoint := Some(record);
      ok := PersistCheckpoint();
    }

    method List() returns (ok: bool, aliases: seq<Alias>)
      requires checkpoint.Some? && disk == checkpoint && Consistent(disk, log) && !checkpoint.value.completed
      modifies this`disk, this`log
      ensures disk == checkpoint && Consistent(disk, log)
      ensures Creates(log) == Creates(old(log)) && Rejections(log) == Rejections(old(log))
      ensures ok ==> LastListing(log) == Some(aliases)
    {
      hide *;
      var reply := Execute(ListAliases);
      ok := reply.Done?;
      aliases := if ok then reply.aliases else [];
    }

    /** The record as first written for a target, or as found in the state file. */
    method Begin(target: string) returns (ok: bool)
      requires Consistent(disk, log)
      modifies this
      ensures Consistent(disk, log)
      ensures ok ==> disk == checkpoint && checkpoint.Some? && checkpoint.value.target == target
    {
      checkpoint := disk;
      if checkpoint.None? {
        NothingYet(log, Record(target, "", "", false, false));
        ok := Mark(Record(target, "", "", false, false));
        return;
      }
      ok := checkpoint.value.target == target;
    }

    /** Stopping and removing the recorded address, each step confirmed by a new listing. */
    method RemoveTarget(listed: seq<Alias>) returns (ok: bool, aliases: seq<Alias>)
      requires checkpoint.Some? && disk == checkpoint && Consistent(disk, log) && !checkpoint.value.completed
      requires LastListing(log) == Some(listed)
      requires Find(listed, checkpoint.value.target).Some? ==>
               Find(listed, checkpoint.value.target).value.id == checkpoint.value.id
      modifies this`disk, this`log
      ensures disk == checkpoint && Consistent(disk, log)
      ensures Creates(log) == Creates(old(log)) && Rejections(log) == Rejections(old(log))
      ensures ok ==> LastListing(log) == Some(aliases) && Find(aliases, checkpoint.value.target).None?
    {
      hide Consistent, Creates, Rejections, LastListing, EqualFold, Find;
      ok, aliases := false, listed;
      var r := checkpoint.value;
      var target := FindPrivateEmail(aliases, r.target);
      var operations := [Stop(r.id, r.target), Remove(r.id, r.target)];
      for i := 0 to 2
        invariant disk == checkpoint && Consistent(disk, log) && !ok
        invariant Creates(log) == Creates(old(log)) && Rejections(log) == Rejections(old(log))
        invariant LastListing(log) == Some(aliases) && target == Find(aliases, r.target)
        invariant target.Some? ==> i < 2 && target.value.id == r.id
      {
        if target.None? { break; }
        if i == 0 && target.value.active == Some(false) { continue; }
        var reply := Execute(operations[i]);
        if !reply.Done? { return; }
        var listedAgain: bool;
        listedAgain, aliases := List();
        if !listedAgain { return; }
        target := FindPrivateEmail(aliases, r.target);
        if target.Some? &&
          (target.value.id != r.id || target.value.active.None? || target.value.active.value || i == 1) {
          return;
        }
      }
      ok := true;
    }

    /** replacePrivateEmail. Whatever happens, and wherever it stops, the state file and the history stay
        consistent; success means the replacement is recorded as complete. */
    method ReplacePrivateEmail(target: string) returns (ok: bool)
      requires Consistent(disk, log)
      modifies this
      ensures Consistent(disk, log)
      ensures ok ==> disk.Some? && disk.value.target == target && disk.value.completed
    {
      hide Consistent, Creates, Rejections, LastListing, EqualFold, Find, Allowed, OnlyAbout, BothAbsent, Replaced;
      ok := Begin(target);
      if !ok || checkpoint.value.completed { return; }
      ok := false;
      var prepared: bool := *;
      if !prepared { return; }
      var reply := Execute(FetchManage);
      if !reply.Done? { return; }
      var listed, aliases := List();
      if !listed { return; }
      var found := FindPrivateEmail(aliases, target);
      if checkpoint.value.id == "" {
        if found.None? { return; }
        RecordId(disk, log, found.value.id);
        var saved := Mark(checkpoint.value.(id := found.value.id));
        if !saved { return; }
      }
      if found.Some? && found.value.id != checkpoint.value.id { return; }
      var removed;
      removed, aliases := RemoveTarget(aliases);
      if !removed { return; }
      var synced: bool := *;
      if !synced { return; }
      ok := Finish(aliases);
    }

    /** The second half: choosing a candidate, creating it at most once, and confirming it. */
    method Finish(listed: seq<Alias>) returns (ok: bool)
      requires checkpoint.Some? && disk == checkpoint && Consistent(disk, log) && !checkpoint.value.completed
      requires LastListing(log) == Some(listed) && Find(listed, checkpoint.value.target).None?
      modifies this
      ensures Consistent(disk, log)
      ensures ok ==> disk == checkpoint && checkpoint.Some? && checkpoint.value.completed
      ensures checkpoint.Some? && checkpoint.value.target == old(checkpoint.value.target)
    {
      hide Consistent, Creates, Rejections, LastListing, EqualFold, Find, Allowed, OnlyAbout;
      ok := false;
      var aliases := listed;
      var target := checkpoint.value.target;
      if checkpoint.value.candidate == "" {
        var generated := Execute(Generate);
        if !generated.Done? { return; }
        var clash := FindPrivateEmail(aliases, generated.address);
        if generated.address == "" || EqualFold(generated.address, target) || clash.Some? { return; }
        RecordCandidate(disk, log, generated.address);
        var saved := Mark(checkpoint.value.(candidate := generated.address));
        if !saved { return; }
      }
      var candidate := checkpoint.value.candidate;
      assert candidate != "";
      var created := FindPrivateEmail(aliases, candidate);
      if created.None? {
        if checkpoint.value.createStarted { return; }
        RecordStart(disk, log, true);
        var saved := Mark(checkpoint.value.(createStarted := true));
        if !saved { return; }
        var reply := Execute(Create(candidate));
        if !reply.Done? {
          if reply.Rejected? && DefiniteRejection(reply.status) {
            RecordStart(disk, log, false);
            saved := Mark(checkpoint.value.(createStarted := false));
          }
          return;
        }
        var again;
        again, aliases := List();
        if !again { return; }
        created := FindPrivateEmail(aliases, candidate);
      }
      var leftover := FindPrivateEmail(aliases, target);
      if created.None? || created.value.active != Some(true) || leftover.Some? { return; }
      var synced: bool := *;
      if !synced { return; }
      RecordDone(disk, log);
      ok := Mark(checkpoint.value.(completed := true));
    }
  }

  lemma {:induction false} NothingYet(log: seq<Action>, r: Record)
    requires forall a :: a in log ==> a.Listed?
    requires !r.completed && !r.createStarted
    ensures Consistent(Some(r), log + [Saved(r)])
  {
    hide Allowed, Creates, Rejections, LastListing;
    NoCreates(log);
    ListingIsAllowed(log, r.target);
    SavingIsAllowed(log, r);
    Append(log, Saved(r));
  }

  lemma {:induction false} ListingIsAllowed(log: seq<Action>, target: string)
    requires forall a :: a in log ==> a.Listed?
    ensures Disciplined(log, target)
  {
    hide Present, BothAbsent, Replaced, Find, EqualFold, LastListing;
    forall i | 0 <= i < |log| ensures Allowed(log[..i], log[i], target) { assert log[i] in log; }
  }

  lemma {:induction false} SavingIsAllowed(log: seq<Action>, r: Record)
    requires !r.completed
    ensures Allowed(log, Saved(r), r.target)
  {
    hide Present, BothAbsent, Replaced, Find, EqualFold, LastListing;
  }

  lemma {:induction false} NoCreates(log: seq<Action>)
    requires forall a :: a in log ==> a.Listed?
    ensures Creates(log) == 0
  {
    if log != [] {
      assert log[|log| - 1] in log;
      NoCreates(log[..|log| - 1]);
    }
  }

  /** A record that names more than before is still about everything done so far. */
  lemma {:induction false} NamesMore(log: seq<Action>, before: Record, r: Record)
    requires forall a :: a in log ==> OnlyAbout(a, before)
    requires r.target == before.target && (r.id == before.id || before.id == "")
    requires r.candidate == before.candidate || before.candidate == ""
    ensures forall a :: a in log + [Saved(r)] ==> OnlyAbout(a, r)
  {
    forall a | a in log ensures OnlyAbout(a, r) { assert OnlyAbout(a, before); }
  }

  lemma {:induction false} RecordId(disk: Option<Record>, log: seq<Action>, id: string)
    requires disk.Some? && Consistent(disk, log) && disk.value.id == "" && !disk.value.completed
    ensures var r := disk.value.(id := id);
            Consistent(Some(r), log + [Saved(r)]) && LastListing(log + [Saved(r)]) == LastListing(log)
  {
    hide OnlyAbout, Allowed, Creates, Rejections, LastListing;
    var r := disk.value.(id := id);
    Append(log, Saved(r));
    SavingIsAllowed(log, r);
    NamesMore(log, disk.value, r);
  }

  lemma {:induction false} RecordCandidate(disk: Option<Record>, log: seq<Action>, candidate: string)
    requires disk.Some? && Consistent(disk, log) && disk.value.candidate == "" && !disk.value.completed
    ensures var r := disk.value.(candidate := candidate);
            Consistent(Some(r), log + [Saved(r)]) && LastListing(log + [Saved(r)]) == LastListing(log)
  {
    hide OnlyAbout, Allowed, Creates, Rejections, LastListing;
    var r := disk.value.(candidate := candidate);
    Append(log, Saved(r));
    SavingIsAllowed(log, r);
    NamesMore(log, disk.value, r);
  }

  lemma {:induction false} RecordStart(disk: Option<Record>, log: seq<Action>, started: bool)
    requires disk.Some? && Consistent(disk, log) && !disk.value.completed
    requires !started ==> Creates(log) <= Rejections(log)
    ensures var r := disk.value.(createStarted := started);
            Consistent(Some(r), log + [Saved(r)])
    ensures !disk.value.createStarted ==> Creates(log) <= Rejections(log)
    ensures Creates(log + [Saved(disk.value.(createStarted := started))]) == Creates(log)
    ensures Rejections(log + [Saved(disk.value.(createStarted := started))]) == Rejections(log)
    ensures LastListing(log + [Saved(disk.value.(createStarted := started))]) == LastListing(log)
  {
    var r := disk.value.(createStarted := started);
    Append(log, Saved(r));
  }

  lemma {:induction false} RecordDone(disk: Option<Record>, log: seq<Action>)
    requires disk.Some? && Consistent(disk, log) && disk.value.candidate != ""
    requires Replaced(LastListing(log), disk.value.target, disk.value.candidate)
    ensures var r := disk.value.(completed := true);
            Consistent(Some(r), log + [Saved(r)])
  {
    var r := disk.value.(completed := true);
    Append(log, Saved(r));
  }

  /** Any number of runs on one state file, each of which may stop anywhere. */
  method Rerun(targets: seq<string>) returns (d: Debugger)
    ensures Consistent(d.disk, d.log)
    ensures Creates(d.log) <= 1 + Rejections(d.log)
    ensures forall i, j :: 0 <= i < j < |d.log| && IsCreate(d.log[i]) && IsCreate(d.log[j]) ==>
              exists k :: i < k < j && d.log[k].Answered? && 400 <= d.log[k].status < 500 && d.log[k].status != 408
  {
    d := new Debugger();
    for i := 0 to |targets|
      invariant Consistent(d.disk, d.log)
    {
      var ok := d.ReplacePrivateEmail(targets[i]);
    }
    HistoryIsSafe(d.disk, d.log);
  }

  predicate IsCreate(a: Action) { a.Sent? && a.op.Create? }

  /** The id a stop or remove request names. */
  function Named(a: Action): string {
    match a
    case Sent(Stop(id, _)) => id
    case Sent(Remove(id, _)) => id
    case _ => ""
  }

  /** What the outside can observe of any series of runs. */
  lemma {:induction false} HistoryIsSafe(disk: Option<Record>, log: seq<Action>)
    requires Consistent(disk, log)
    ensures Creates(log) <= 1 + Rejections(log)
    ensures forall i, j :: 0 <= i < j < |log| && IsCreate(log[i]) && IsCreate(log[j]) ==>
              exists k :: i < k < j && log[k].Answered? && 400 <= log[k].status < 500 && log[k].status != 408
    ensures forall a, b :: a in log && b in log && Named(a) != "" && Named(b) != "" ==> Named(a) == Named(b)
    ensures forall a, b :: a in log && b in log && a.Sent? && b.Sent? && a.op.Create? && b.op.Create? ==>
            a.op.address == b.op.address
    ensures disk.Some? ==> forall i :: 0 <= i < |log| ==> Allowed(log[..i], log[i], disk.value.target)
    ensures disk.None? ==> forall a :: a in log ==> a.Listed?
  {
    hide Allowed, Creates, Rejections, LastListing;
    if disk.None? {
      NoCreates(log);
      assert forall i :: 0 <= i < |log| ==> log[i] in log && log[i].Listed?;
    } else {
      assert forall a :: a in log ==> OnlyAbout(a, disk.value);
      forall i, j | 0 <= i < j < |log| && IsCreate(log[i]) && IsCreate(log[j])
        ensures exists k :: i < k < j && log[k].Answered? && 400 <= log[k].status < 500 && log[k].status != 408
      {
        RefusedBetween(log, disk.value.target, i, j);
      }
    }
  }

  /** Between two creations there was a refusal. */
  lemma {:induction false} RefusedBetween(log: seq<Action>, target: string, i: nat, j: nat)
    requires Disciplined(log, target) && i < j < |log| && log[i].Sent? && log[j].Sent?
    requires log[i].op.Create? && log[j].op.Create?
    ensures exists k :: i < k < j && Refuses(log[k])
  {
    hide Allowed, Creates, Rejections, LastListing, Refuses;
    PrefixDisciplined(log, target, i);
    RejectionsFollow(log[..i], target);
    assert Allowed(log[..j], log[j], target);
    CreationIsDue(log[..j], log[j], target);
    Append(log[..i], log[i]);
    assert log[..i + 1] == log[..i] + [log[i]];
    NotARefusal(log[i]);
    CountsGrow(log, i + 1, j);
  }

  lemma {:induction false} NotARefusal(a: Action)
    requires a.Sent?
    ensures !Refuses(a)
  {}

  lemma {:induction false} PrefixDisciplined(log: seq<Action>, target: string, n: nat)
    requires Disciplined(log, target) && n <= |log|
    ensures Disciplined(log[..n], target)
  {
    hide Allowed;
    assert forall i :: 0 <= i < n ==> log[..n][i] == log[i] && log[..n][..i] == log[..i];
  }

  lemma {:induction false} CreationIsDue(log: seq<Action>, a: Action, target: string)
    requires Allowed(log, a, target) && a.Sent? && a.op.Create?
    ensures Creates(log) <= Rejections(log)
  {}

  lemma {:induction false} CountsGrow(log: seq<Action>, m: nat, n: nat)
    requires m <= n <= |log|
    ensures Creates(log[..m]) <= Creates(log[..n]) && Rejections(log[..m]) <= Rejections(log[..n])
    ensures Rejections(log[..m]) < Rejections(log[..n]) ==> exists k :: m <= k < n && Refuses(log[k])
    decreases n
  {
    hide Creates, Rejections, LastListing, Allowed, Refuses;
    if m < n {
      CountsGrow(log, m, n - 1);
      Append(log[..n - 1], log[n - 1]);
      assert log[..n] == log[..n - 1] + [log[n - 1]];
    }
  }

  // ---------------------------------------------------------------- the same in terms of listings

  /** The latest listing before position i, and where it is. */
  ghost predicate Latest(log: seq<Action>, i: nat, j: nat) {
    j < i <= |log| && log[j].Listed? && forall k :: j < k < i ==> !log[k].Listed?
  }

  lemma {:induction false} LastListingIs(log: seq<Action>, i: nat)
    requires i <= |log| && LastListing(log[..i]).Some?
    ensures exists j: nat :: Latest(log, i, j) && log[j].aliases == LastListing(log[..i]).value
    decreases i
  {
    assert i > 0;
    var before := log[..i - 1];
    assert log[..i][..i - 1] == before;
    if log[i - 1].Listed? {
      assert Latest(log, i, i - 1);
    } else {
      LastListingIs(log, i - 1);
      var j: nat :| Latest(log, i - 1, j) && log[j].aliases == LastListing(before).value;
      assert Latest(log, i, j);
    }
  }

  lemma {:induction false} FoundIs(aliases: seq<Alias>, address: string)
    ensures Find(aliases, address).Some? ==>
              Find(aliases, address).value in aliases && SameAddress(Find(aliases, address).value.address, address)
    ensures Find(aliases, address).None? ==> forall a :: a in aliases ==> !SameAddress(a.address, address)
    decreases |aliases|
  {
    hide Lower;
    if aliases != [] {
      SameLowerIff(aliases[0].address, address);
      FoundIs(aliases[1..], address);
    }
  }

  /** An address is stopped or removed only if the latest listing shows it under the id of the request, and stopped
      only if it is not known to be inactive. */
  lemma {:induction false} RemovalIsSeen(log: seq<Action>, target: string, i: nat)
    requires Disciplined(log, target) && i < |log| && log[i].Sent? && (log[i].op.Stop? || log[i].op.Remove?)
    ensures exists j: nat, a :: Latest(log, i, j) && a in log[j].aliases && a.id == log[i].op.id
              && SameAddress(a.address, log[i].op.address) && (log[i].op.Stop? ==> a.active != Some(false))
  {
    hide Find, EqualFold, LastListing, Creates, Rejections, BothAbsent, Replaced, SameAddress;
    assert Allowed(log[..i], log[i], target);
    LastListingIs(log, i);
    var j: nat :| Latest(log, i, j) && log[j].aliases == LastListing(log[..i]).value;
    FoundIs(log[j].aliases, log[i].op.address);
    assert Find(log[j].aliases, log[i].op.address).value in log[j].aliases;
  }

  /** An address is created only if the latest listing shows neither it nor the one it replaces. */
  lemma {:induction false} CreationIsAbsent(log: seq<Action>, target: string, i: nat)
    requires Disciplined(log, target) && i < |log| && log[i].Sent? && log[i].op.Create?
    ensures exists j: nat :: Latest(log, i, j) && forall a :: a in log[j].aliases ==>
              !SameAddress(a.address, log[i].op.address) && !SameAddress(a.address, target)
  {
    hide Find, EqualFold, LastListing, Creates, Rejections, Replaced, Present, SameAddress;
    assert Allowed(log[..i], log[i], target);
    LastListingIs(log, i);
    var j: nat :| Latest(log, i, j) && log[j].aliases == LastListing(log[..i]).value;
    FoundIs(log[j].aliases, log[i].op.address);
    FoundIs(log[j].aliases, target);
  }

  /** A replacement is recorded as complete only if the latest listing shows it active and the old address gone. */
  lemma {:induction false} CompletionIsSeen(log: seq<Action>, target: string, i: nat)
    requires Disciplined(log, target) && i < |log| && log[i].Saved? && log[i].record.completed
    ensures exists j: nat :: Latest(log, i, j)
              && (forall a :: a in log[j].aliases ==> !SameAddress(a.address, target))
              && exists a :: a in log[j].aliases && a.active == Some(true)
                   && SameAddress(a.address, log[i].record.candidate)
  {
    hide Find, EqualFold, LastListing, Creates, Rejections, BothAbsent, Present, SameAddress;
    assert Allowed(log[..i], log[i], target);
    LastListingIs(log, i);
    var j: nat :| Latest(log, i, j) && log[j].aliases == LastListing(log[..i]).value;
    FoundIs(log[j].aliases, target);
    FoundIs(log[j].aliases, log[i].record.candidate);
  }
}
