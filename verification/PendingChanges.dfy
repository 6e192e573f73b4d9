/** The pending-changes file of the Apple tool: passwords and birthdays chosen for accounts, written down before
    they are used, so that a rerun uses the same ones. */
module PendingChanges {
  import opened Options
  import opened Text
  import opened Fields

  datatype Change = Change(password: string, birthday: string)

  const PASSWORD_LENGTH := 16

  datatype Kind = UpperCase | LowerCase | Digit | Symbol | Foreign

  function KindOf(c: char): Kind {
    if 'A' <= c <= 'Z' then UpperCase
    else if 'a' <= c <= 'z' then LowerCase
    else if '0' <= c <= '9' then Digit
    else if c == '!' || c == '@' || c == '#' || c == '$' || c == '%' then Symbol
    else Foreign
  }

  function Kinds(p: string): set<Kind> {
    if p == "" then {} else Kinds(p[..|p| - 1]) + {KindOf(p[|p| - 1])}
  }

  predicate Varied(p: string) { forall i :: 2 <= i < |p| ==> !(p[i] == p[i - 1] && p[i] == p[i - 2]) }

  predicate Blanks(p: string) {
    exists i :: 0 <= i < |p| && (p[i] == '\r' || p[i] == '\n' || p[i] == ' ' || p[i] == '\t')
  }

  /** Letters of both cases, digits and symbols, of each some and nothing else, and no character three times
      in a row. */
  predicate ValidPassword(p: string) {
    |p| == PASSWORD_LENGTH && Kinds(p) == {UpperCase, LowerCase, Digit, Symbol} && Varied(p)
  }

  /** The passwords, character by character. */
  lemma {:induction false} ValidPasswordIff(p: string)
    ensures ValidPassword(p) <==>
            && |p| == 16
            && (forall c :: c in p ==> 'A' <= c <= 'Z' || 'a' <= c <= 'z' || '0' <= c <= '9' || c in "!@#$%")
            && (exists c :: c in p && 'A' <= c <= 'Z') && (exists c :: c in p && 'a' <= c <= 'z')
            && (exists c :: c in p && '0' <= c <= '9') && (exists c :: c in p && c in "!@#$%")
            && forall i :: 0 <= i < 14 ==> !(p[i] == p[i + 1] && p[i] == p[i + 2])
  {
    hide Kinds, Varied;
    forall k: Kind ensures k in Kinds(p) <==> exists c :: c in p && KindOf(c) == k { KindIff(p, k); }
    VariedIff(p);
    if |p| == 16 && Foreign !in Kinds(p) && UpperCase in Kinds(p) && LowerCase in Kinds(p) && Digit in Kinds(p) &&
      Symbol in Kinds(p) {
      forall k: Kind ensures k in Kinds(p) <==> k in {UpperCase, LowerCase, Digit, Symbol} {}
    }
  }

  lemma {:induction false} KindIff(p: string, k: Kind)
    ensures k in Kinds(p) <==> exists c :: c in p && KindOf(c) == k
  {
    if p != "" {
      var n := |p| - 1;
      KindIff(p[..n], k);
      assert p[n] in p && forall c :: c in p <==> c in p[..n] || c == p[n];
    }
  }

  lemma {:induction false} VariedIff(p: string)
    ensures Varied(p) <==> forall i :: 0 <= i < |p| - 2 ==> !(p[i] == p[i + 1] && p[i] == p[i + 2])
  {
    if Varied(p) {
      forall i | 0 <= i < |p| - 2 ensures !(p[i] == p[i + 1] && p[i] == p[i + 2]) {
        assert !(p[i + 2] == p[i + 2 - 1] && p[i + 2] == p[i + 2 - 2]);
      }
    } else {
      var i :| 2 <= i < |p| && p[i] == p[i - 1] && p[i] == p[i - 2];
      assert !(0 <= i - 2 < |p| - 2 ==> !(p[i - 2] == p[i - 2 + 1] && p[i - 2] == p[i - 2 + 2]));
    }
  }

  /** validGeneratedPassword. */
  method CheckPassword(p: string) returns (valid: bool)
    ensures valid == ValidPassword(p)
  {
    hide Contains, Blanks, Varied;
    if |p| != PASSWORD_LENGTH || Contains(p) || Blanks(p) {
      ForeignCharacters(p);
      return false;
    }
    var upper, lower, digit, symbol := false, false, false, false;
    for i := 0 to |p|
      invariant Foreign !in Kinds(p[..i])
      invariant upper == (UpperCase in Kinds(p[..i])) && lower == (LowerCase in Kinds(p[..i]))
      invariant digit == (Digit in Kinds(p[..i])) && symbol == (Symbol in Kinds(p[..i]))
    {
      assert p[..i + 1][..i] == p[..i];
      KindIn(p, i);
      match KindOf(p[i]) {
        case UpperCase => upper := true;
        case LowerCase => lower := true;
        case Digit => digit := true;
        case Symbol => symbol := true;
        case Foreign => return false;
      }
    }
    assert p[..|p|] == p;
    assert Foreign !in Kinds(p);
    forall k | k in Kinds(p) ensures k in {UpperCase, LowerCase, Digit, Symbol} { assert k != Foreign; }
    var varied := CheckRuns(p);
    return varied && upper && lower && digit && symbol;
  }

  method CheckRuns(p: string) returns (varied: bool)
    requires |p| == PASSWORD_LENGTH
    ensures varied == Varied(p)
  {
    for i := 2 to |p|
      invariant forall n :: 2 <= n < i ==> !(p[n] == p[n - 1] && p[n] == p[n - 2])
    {
      if p[i] == p[i - 1] && p[i] == p[i - 2] { return false; }
    }
    return true;
  }

  lemma {:induction false} KindIn(p: string, i: nat)
    requires i < |p|
    ensures KindOf(p[i]) in Kinds(p)
    decreases |p|
  {
    if i < |p| - 1 { KindIn(p[..|p| - 1], i); }
  }

  /** A separator or white space is foreign to a password. */
  lemma {:induction false} ForeignCharacters(p: string)
    ensures Contains(p) || Blanks(p) ==> Foreign in Kinds(p)
  {
    if Contains(p) {
      KindIn(p, Find(p));
    } else if Blanks(p) {
      var i :| 0 <= i < |p| && (p[i] == '\r' || p[i] == '\n' || p[i] == ' ' || p[i] == '\t');
      KindIn(p, i);
    }
  }

  // ---------------------------------------------------------------- the file

  function LineOf(email: string, c: Change): string { Join([email, c.password, c.birthday]) }

  /** A line is address, password and birthday. */
  lemma {:induction false} LineReads(email: string, c: Change)
    ensures LineOf(email, c) == email + "----" + c.password + "----" + c.birthday
  {
    var f := [email, c.password, c.birthday];
    assert f[1..] == [c.password, c.birthday] && f[1..][1..] == [c.birthday];
    assert Join([c.birthday]) == c.birthday;
    assert Join([c.password, c.birthday]) == c.password + "----" + c.birthday;
    assert Join(f) == email + "----" + (c.password + "----" + c.birthday);
  }

  /** One line; None stands for the errors that refuse the whole file. */
  function ParseLine(line: string, lib: Library): Option<(string, Change)> {
    var parts := Split(line);
    if |parts| != 3 then None
    else
      var email, password, birthday := Lower(Trim(parts[0])), Trim(parts[1]), lib.date(Trim(parts[2]));
      if !lib.isAddress(email) || !ValidPassword(password) || birthday.None? then None
      else Some((email, Change(password, birthday.value)))
  }

  function Loaded(lines: seq<string>, lib: Library): Option<map<string, Change>> {
    if lines == [] then Some(map[])
    else
      var before, entry := Loaded(lines[..|lines| - 1], lib), ParseLine(lines[|lines| - 1], lib);
      if before.None? || entry.None? || entry.value.0 in before.value then None
      else Some(before.value[entry.value.0 := entry.value.1])
  }

  method LoadPending(lines: seq<string>, lib: Library) returns (result: Option<map<string, Change>>)
    ensures result == Loaded(lines, lib)
  {
    var pending: map<string, Change> := map[];
    for i := 0 to |lines|
      invariant Loaded(lines[..i], lib) == Some(pending)
    {
      var parts := SplitFields(lines[i]);
      LoadedGrows(lines, i, lib);
      if |parts| != 3 { LoadedFails(lines, i + 1, lib); return None; }
      var email, password := Lower(Trim(parts[0])), Trim(parts[1]);
      if !lib.isAddress(email) { LoadedFails(lines, i + 1, lib); return None; }
      var valid := CheckPassword(password);
      if !valid { LoadedFails(lines, i + 1, lib); return None; }
      var birthday := lib.date(Trim(parts[2]));
      if birthday.None? { LoadedFails(lines, i + 1, lib); return None; }
      if email in pending { LoadedFails(lines, i + 1, lib); return None; }
      pending := pending[email := Change(password, birthday.value)];
    }
    assert lines[..|lines|] == lines;
    return Some(pending);
  }

  lemma {:induction false} LoadedGrows(lines: seq<string>, i: nat, lib: Library)
    requires i < |lines|
    ensures var before, entry := Loaded(lines[..i], lib), ParseLine(lines[i], lib);
            Loaded(lines[..i + 1], lib) ==
            if before.None? || entry.None? || entry.value.0 in before.value then None
            else Some(before.value[entry.value.0 := entry.value.1])
  {
    assert lines[..i + 1][..i] == lines[..i];
  }

  lemma {:induction false} LoadedFails(lines: seq<string>, i: nat, lib: Library)
    requires i <= |lines| && Loaded(lines[..i], lib).None?
    ensures Loaded(lines, lib).None?
    decreases |lines| - i
  {
    if i < |lines| {
      LoadedGrows(lines, i, lib);
      LoadedFails(lines, i + 1, lib);
    } else {
      assert lines[..i] == lines;
    }
  }

  /** The lines of these entries, in whatever order they are sorted. */
  function Written(emails: seq<string>, pending: map<string, Change>): seq<string>
    requires forall e :: e in emails ==> e in pending
  {
    seq(|emails|, i requires 0 <= i < |emails| => LineOf(emails[i], pending[emails[i]]))
  }

  /** Entries as the tool makes them. */
  predicate Proper(email: string, c: Change, lib: Library) {
    && Trim(email) == email && Lower(email) == email && lib.isAddress(email)
    && ValidPassword(c.password) && Canonical(c.birthday, lib)
  }

  /** A date as it is formatted: reading it gives it back, and it has no separator. */
  predicate Canonical(birthday: string, lib: Library) {
    Trim(birthday) == birthday && !Contains(birthday) && lib.date(birthday) == Some(birthday)
  }

  /** Whatever is read as a date is formatted. */
  ghost predicate Lawful(lib: Library) { forall s :: lib.date(s).Some? ==> Canonical(lib.date(s).value, lib) }

  /** No address contains the separator; all come from lines that were split. */
  ghost predicate Uncut(pending: map<string, Change>) { forall e :: e in pending ==> !Contains(e) }

  ghost predicate Dashless(pending: map<string, Change>) { forall e :: e in pending ==> !EndsInDash(e) }

  ghost predicate AllProper(pending: map<string, Change>, lib: Library) {
    forall e :: e in pending ==> Proper(e, pending[e], lib)
  }

  lemma {:induction false} NoDash(p: string)
    requires ValidPassword(p)
    ensures '-' !in p && Separable(p) && Trim(p) == p
  {
    hide Kinds;
    forall i | 0 <= i < |p| ensures p[i] != '-' && !IsSpace(p[i]) {
      KindIn(p, i);
    }
    ForeignCharacters(p);
  }

  lemma {:induction false} TrimKeepsDashes(s: string)
    ensures '-' in s ==> '-' in Trim(s)
    ensures |Trim(s)| <= |s|
  {
    LeftKeepsDashes(s);
    RightKeepsDashes(TrimLeft(s));
  }

  lemma {:induction false} LeftKeepsDashes(s: string)
    ensures '-' in s ==> '-' in TrimLeft(s)
    decreases |s|
  {
    if s != "" && IsSpace(s[0]) {
      LeftKeepsDashes(s[1..]);
      assert s == [s[0]] + s[1..];
    }
  }

  lemma {:induction false} RightKeepsDashes(s: string)
    ensures '-' in s ==> '-' in TrimRight(s)
    decreases |s|
  {
    if s != "" && IsSpace(s[|s| - 1]) {
      RightKeepsDashes(s[..|s| - 1]);
      assert s == s[..|s| - 1] + [s[|s| - 1]];
    }
  }

  /** A written line is read back as it was exactly when its address can stand before a separator, and is refused
      otherwise: it is never taken for another entry. */
  lemma {:induction false} LineRoundTripIff(email: string, c: Change, lib: Library)
    requires Proper(email, c, lib)
    ensures ParseLine(LineOf(email, c), lib) == if Separable(email) then Some((email, c)) else None
  {
    hide ValidPassword, Trim, Lower, Separable, Clean;
    NoDash(c.password);
    var fields := [email, c.password, c.birthday];
    CleanThree(email, c);
    SplitJoinIff(fields);
    if !Separable(email) { Misread(email, c, lib); }
  }

  lemma {:induction false} CleanThree(email: string, c: Change)
    requires Separable(c.password) && !Contains(c.birthday)
    ensures Clean([email, c.password, c.birthday]) <==> Separable(email)
  {
    var f := [email, c.password, c.birthday];
    assert f[0] == email && f[1] == c.password;
  }

  /** The separators of the line that follow the first one found cannot all be accounted for by three parts. */
  lemma {:induction false} Misread(email: string, c: Change, lib: Library)
    requires ValidPassword(c.password) && !Separable(email)
    ensures ParseLine(LineOf(email, c), lib).None?
  {
    hide ValidPassword, Trim, Lower, Contains, Separable, Split, Join;
    var s, parts := LineOf(email, c), Split(LineOf(email, c));
    PasswordHasLength(c.password);
    LineIs(email, c);
    if |parts| == 3 && ValidPassword(Trim(parts[1])) {
      NoDash(Trim(parts[1]));
      PasswordHasLength(Trim(parts[1]));
      TrimKeepsDashes(parts[1]);
      ThreeParts(s);
      TooManySeparators(s, |email|, parts[1]);
    }
  }

  lemma {:induction false} LineIs(email: string, c: Change)
    requires |c.password| == PASSWORD_LENGTH
    ensures var s := LineOf(email, c);
            && SeparatorAt(s, |email|) && SeparatorAt(s, |email| + 4 + PASSWORD_LENGTH)
            && Find(s) <= |email| && (Find(s) == |email| <==> Separable(email))
  {
    var f := [email, c.password, c.birthday];
    var tail := c.password + SEPARATOR + c.birthday;
    assert f[1..] == [c.password, c.birthday] && f[1..][1..] == [c.birthday];
    assert Join(f[1..]) == tail;
    assert Join(f) == f[0] + SEPARATOR + Join(f[1..]);
    assert LineOf(email, c) == email + SEPARATOR + tail;
    FindFirst(email, tail);
  }

  lemma {:induction false} PasswordHasLength(p: string)
    requires ValidPassword(p)
    ensures |p| == PASSWORD_LENGTH
  {}

  lemma {:induction false} ThreeParts(s: string)
    requires |Split(s)| == 3
    ensures var n, p := Find(s), Split(s)[1];
            && n + 4 + |p| + 4 <= |s| && s[n + 4..n + 4 + |p|] == p && !Contains(s[n + 4 + |p| + 4..])
  {
    hide Split, Contains;
    SplitOnce(s);
    var n := Find(s);
    var rest := s[n + 4..];
    SplitOnce(rest);
    var m := Find(rest);
    SplitOnce(rest[m + 4..]);
    assert Split(s)[1] == Split(rest)[0] == rest[..m];
    assert |Split(rest[m + 4..])| == 1 && !Contains(rest[m + 4..]);
    assert rest[m + 4..] == s[n + 4 + m + 4..];
  }

  lemma {:induction false} SplitOnce(s: string)
    ensures |Split(s)| == 1 ==> !Contains(s)
    ensures |Split(s)| > 1 ==>
              Find(s) + 4 <= |s| && Split(s)[0] == s[..Find(s)] && |Split(s[Find(s) + 4..])| == |Split(s)| - 1
              && forall i :: 0 < i < |Split(s)| ==> Split(s)[i] == Split(s[Find(s) + 4..])[i - 1]
  {
    if Contains(s) { assert Split(s) == [s[..Find(s)]] + Split(s[Find(s) + 4..]); }
  }

  lemma {:induction false} TooManySeparators(s: string, at: nat, p: string)
    requires Find(s) < at && SeparatorAt(s, at) && SeparatorAt(s, at + 4 + PASSWORD_LENGTH) && |p| >= PASSWORD_LENGTH
    requires var n := Find(s); n + 4 + |p| + 4 <= |s| && s[n + 4..n + 4 + |p|] == p && !Contains(s[n + 4 + |p| + 4..])
    ensures '-' in p
  {
    hide Contains;
    var start, end := Find(s) + 4, Find(s) + 4 + |p|;
    if at < start {
      assert p[0] == s[start] == '-';
    } else if at < end {
      assert p[at - start] == s[at] == '-';
    } else {
      SeparatorLeft(s, end + 4, if at >= end + 4 then at else at + 4 + PASSWORD_LENGTH);
    }
  }

  lemma {:induction false} SeparatorLeft(s: string, start: nat, k: nat)
    requires start <= k && SeparatorAt(s, k)
    ensures Contains(s[start..])
  {
    assert SeparatorAt(s[start..], k - start);
  }

  /** Writing the pending changes and loading them again: everything comes back exactly when every address can
      stand before a separator; otherwise the file is refused. */
  lemma {:induction false} FileRoundTripIff(emails: seq<string>, pending: map<string, Change>, lib: Library)
    requires forall e :: e in emails ==> e in pending && Proper(e, pending[e], lib)
    requires forall i, j :: 0 <= i < j < |emails| ==> emails[i] != emails[j]
    ensures (forall e :: e in emails ==> Separable(e)) ==>
              Loaded(Written(emails, pending), lib) == Some(map e | e in emails :: pending[e])
    ensures (exists e :: e in emails && !Separable(e)) ==> Loaded(Written(emails, pending), lib).None?
    decreases |emails|
  {
    hide Separable, LineOf, ParseLine, Loaded, Proper;
    if emails == [] {
      LoadedNothing(lib);
    } else {
      var n := |emails| - 1;
      var rest, last := emails[..n], emails[n];
      assert emails == rest + [last];
      FileRoundTripIff(rest, pending, lib);
      LineRoundTripIff(last, pending[last], lib);
      var lines := Written(emails, pending);
      assert lines[..n] == Written(rest, pending) && lines[..n + 1] == lines;
      LoadedGrows(lines, n, lib);
      assert last !in rest;
      var before := map e | e in rest :: pending[e];
      assert before[last := pending[last]] == map e | e in emails :: pending[e];
    }
  }

  lemma {:induction false} SampleIsValid()
    ensures ValidPassword("Ab1!Ab1!Ab1!Ab1!")
  {
    var p := "Ab1!Ab1!Ab1!Ab1!";
    forall i | 0 <= i < |p| ensures KindOf(p[i]) != Foreign {}
    NoneForeign(p);
    KindIn(p, 0);
    KindIn(p, 1);
    KindIn(p, 2);
    KindIn(p, 3);
    forall k | k in Kinds(p) ensures k in {UpperCase, LowerCase, Digit, Symbol} { assert k != Foreign; }
  }

  lemma {:induction false} NoneForeign(p: string)
    requires forall i :: 0 <= i < |p| ==> KindOf(p[i]) != Foreign
    ensures Foreign !in Kinds(p)
    decreases |p|
  {
    if p != "" { NoneForeign(p[..|p| - 1]); }
  }

  // ---------------------------------------------------------------- what is loaded is proper

  lemma {:induction false} LowerIsSpace(c: char)
    ensures IsSpace(Lower([c])[0]) == IsSpace(c)
  {}

  lemma {:induction false} LowerOfTrimmed(s: string)
    ensures var e := Lower(Trim(s)); Trim(e) == e && Lower(e) == e
  {
    hide Trim;
    var t := Trim(s);
    if t == "" {
      TrimNothing();
    } else {
      LowerIsSpace(t[0]);
      LowerIsSpace(t[|t| - 1]);
      assert Lower(t)[0] == Lower([t[0]])[0] && Lower(t)[|t| - 1] == Lower([t[|t| - 1]])[0];
    }
    assert Lower(Lower(t)) == Lower(t);
  }

  /** Every entry of a file that loads could have been made by the tool, and no address has the separator in it. */
  lemma {:induction false} LoadedIsProper(lines: seq<string>, lib: Library)
    requires Lawful(lib) && Loaded(lines, lib).Some?
    ensures AllProper(Loaded(lines, lib).value, lib) && Uncut(Loaded(lines, lib).value)
    decreases |lines|
  {
    hide Trim, Lower, ValidPassword, Contains, Split;
    if lines != [] {
      var n := |lines| - 1;
      LoadedIsProper(lines[..n], lib);
      LowerOfTrimmed(Split(lines[n])[0]);
      AddressIsUncut(lines[n], 0);
    }
  }

  lemma {:induction false} LoadedNothing(lib: Library)
    ensures Loaded([], lib) == Some(map[])
  {}

  // ---------------------------------------------------------------- choosing the changes

  datatype Account = Account(email: string, password: string, birthday: string)

  /** What is planned for an account; recovering means that an earlier run had already planned it. */
  datatype Plan = Plan(change: Change, recovering: bool)

  /** An earlier plan still stands unless the account already has the password or the birthday it names. */
  predicate Stands(pending: map<string, Change>, a: Account) {
    && Lower(a.email) in pending
    && pending[Lower(a.email)].password != a.password && pending[Lower(a.email)].birthday != a.birthday
  }

  /** The plan for an account: pending, different from what the account has now, and kept exactly if it still stood. */
  ghost predicate Planned(a: Account, plan: Plan, loaded: map<string, Change>, pending: map<string, Change>) {
    && Lower(a.email) in pending && pending[Lower(a.email)] == plan.change
    && plan.change.password != a.password && plan.change.birthday != a.birthday
    && (plan.recovering <==> Stands(loaded, a))
    && (plan.recovering ==> plan.change == loaded[Lower(a.email)])
  }

  ghost predicate Unshared(pending: map<string, Change>) {
    forall e, f :: e in pending && f in pending && e != f ==> pending[e].password != pending[f].password
  }

  /** The owners of the passwords are the pending entries, the other way round. */
  ghost predicate Owned(owners: map<string, string>, pending: map<string, Change>) {
    && (forall p :: p in owners ==> owners[p] in pending && pending[owners[p]].password == p)
    && (forall e :: e in pending ==> pending[e].password in owners && owners[pending[e].password] == e)
  }

  lemma {:induction false} OwnedIsUnshared(owners: map<string, string>, pending: map<string, Change>)
    requires Owned(owners, pending)
    ensures Unshared(pending)
  {}

  /** Accounts as the loader leaves them: no address twice, and each can be a key of the file. */
  ghost predicate Listed(accounts: seq<Account>, lib: Library) {
    && (forall a :: a in accounts ==>
          Trim(a.email) == a.email == Lower(a.email) && lib.isAddress(a.email) && !Contains(a.email))
    && forall i, j :: 0 <= i < j < |accounts| ==> Lower(accounts[i].email) != Lower(accounts[j].email)
  }

  /** Each of these accounts has its plan, and nothing else was added or changed. */
  ghost predicate Prepared(accounts: seq<Account>, plans: seq<Plan>, loaded: map<string, Change>,
                           pending: map<string, Change>) {
    && |plans| == |accounts| && (forall i :: 0 <= i < |accounts| ==> Planned(accounts[i], plans[i], loaded, pending))
    && pending.Keys == loaded.Keys + (set a | a in accounts :: Lower(a.email))
    && forall e :: e in loaded && (forall a :: a in accounts ==> Lower(a.email) != e) ==> pending[e] == loaded[e]
  }

  /** The choosing loop of prepareAccountChanges. Afterwards every account has a planned change that differs
      from what it has now, no two pending entries share a password, a plan that still stood was kept, and a new
      one is such as the file can hold. With plans that all stand it changes nothing and cannot fail. */
  method PrepareChanges(accounts: seq<Account>, loaded: map<string, Change>, lib: Library)
    returns (ok: bool, pending: map<string, Change>, plans: seq<Plan>)
    requires Listed(accounts, lib) && AllProper(loaded, lib)
    ensures ok ==> Unshared(loaded) && Unshared(pending) && AllProper(pending, lib)
    ensures ok ==> Prepared(accounts, plans, loaded, pending)
    ensures Unshared(loaded) && (forall a :: a in accounts ==> Stands(loaded, a)) ==> ok && pending == loaded
  {
    hide Lower, Trim, ValidPassword, Planned, Owned, Unshared, Stands, AllProper, Prepared;
    pending, plans := loaded, [];
    var owners: map<string, string>;
    ok, owners := CollectOwners(loaded);
    if !ok { return; }
    OwnedIsUnshared(owners, pending);
    NothingPrepared(loaded);
    assert accounts[..0] == [];
    for i := 0 to |accounts|
      invariant Owned(owners, pending) && AllProper(pending, lib) && Prepared(accounts[..i], plans, loaded, pending)
      invariant (forall a :: a in accounts ==> Stands(loaded, a)) ==> pending == loaded
    {
      var plan;
      ghost var before := pending;
      assert accounts[i] in accounts;
      ok, pending, owners, plan := PlanOne(accounts[i], pending, owners, lib);
      if !ok { return; }
      PreparedGrows(accounts, i, plans, plan, loaded, before, lib);
      plans := plans + [plan];
    }
    assert accounts[..|accounts|] == accounts;
    OwnedIsUnshared(owners, pending);
    return true, pending, plans;
  }

  lemma {:induction false} NothingPrepared(loaded: map<string, Change>)
    ensures Prepared([], [], loaded, loaded)
  {}

  lemma {:induction false} OthersDiffer(accounts: seq<Account>, i: nat, lib: Library)
    requires i < |accounts| && Listed(accounts, lib)
    ensures forall n :: 0 <= n < i ==> Lower(accounts[n].email) != Lower(accounts[i].email)
    ensures forall a :: a in accounts[..i] ==> Lower(a.email) != Lower(accounts[i].email)
  {
    hide Lower, Trim, Contains;
  }

  lemma {:induction false} PreparedGrows(accounts: seq<Account>, i: nat, plans: seq<Plan>, plan: Plan,
                                         loaded: map<string, Change>, before: map<string, Change>, lib: Library)
    requires i < |accounts| && Listed(accounts, lib) && Prepared(accounts[..i], plans, loaded, before)
    requires Planned(accounts[i], plan, before, before[Lower(accounts[i].email) := plan.change])
    ensures Prepared(accounts[..i + 1], plans + [plan], loaded, before[Lower(accounts[i].email) := plan.change])
  {
    hide Lower, Trim, Planned, Listed;
    var key := Lower(accounts[i].email);
    var after := before[key := plan.change];
    assert accounts[..i + 1] == accounts[..i] + [accounts[i]];
    OthersDiffer(accounts, i, lib);
    forall n | 0 <= n < i ensures Planned(accounts[n], plans[n], loaded, after) {
      assert accounts[..i][n] == accounts[n];
      StillPlanned(accounts[n], plans[n], loaded, before, key, plan.change);
    }
    PlannedFromBefore(accounts[i], plan, loaded, before, after);
  }

  /** An account not looked at before is planned for as if its entry were the loaded one, which it is. */
  lemma {:induction false} PlannedFromBefore(a: Account, plan: Plan, loaded: map<string, Change>,
                                             before: map<string, Change>, pending: map<string, Change>)
    requires Planned(a, plan, before, pending)
    requires Lower(a.email) in before <==> Lower(a.email) in loaded
    requires Lower(a.email) in before ==> before[Lower(a.email)] == loaded[Lower(a.email)]
    ensures Planned(a, plan, loaded, pending)
  {}

  lemma {:induction false} StillPlanned(a: Account, plan: Plan, loaded: map<string, Change>,
                                        before: map<string, Change>,
                                        key: string, change: Change)
    requires Planned(a, plan, loaded, before) && Lower(a.email) != key
    ensures Planned(a, plan, loaded, before[key := change])
  {}

  method PlanOne(a: Account, before: map<string, Change>, owned: map<string, string>, lib: Library)
    returns (ok: bool, pending: map<string, Change>, owners: map<string, string>, plan: Plan)
    requires Owned(owned, before) && AllProper(before, lib)
    requires Trim(a.email) == a.email == Lower(a.email) && lib.isAddress(a.email)
    ensures ok ==>
      && Owned(owners, pending) && pending == before[Lower(a.email) := plan.change]
      && Planned(a, plan, before, pending) && AllProper(pending, lib)
    ensures Stands(before, a) ==> ok && pending == before
  {
    hide Lower, Trim, ValidPassword, Canonical;
    pending, owners := before, owned;
    var key := Lower(a.email);
    var recovering := key in pending;
    if recovering && (pending[key].password == a.password || pending[key].birthday == a.birthday) {
      owners := owners - {pending[key].password};
      pending := pending - {key};
      recovering := false;
    }
    assert Owned(owners, pending) && recovering == Stands(before, a);
    if recovering { return true, pending, owners, Plan(pending[key], true); }
    // generateNewPassword and generateNewBirthday draw until these hold, unless randomness fails
    var change: Change, drawn: bool := *, *;
    if !drawn || change.password == a.password || change.password in owners || !ValidPassword(change.password)
      || change.birthday == a.birthday || !Canonical(change.birthday, lib) {
      return false, pending, owners, Plan(change, false);
    }
    return true, pending[key := change], owners[change.password := key], Plan(change, false);
  }

  method CollectOwners(pending: map<string, Change>) returns (ok: bool, owners: map<string, string>)
    ensures ok <==> Unshared(pending)
    ensures ok ==> Owned(owners, pending)
  {
    owners := map[];
    var rest := pending.Keys;
    while rest != {}
      invariant rest <= pending.Keys
      invariant forall p :: p in owners ==>
                owners[p] in pending && owners[p] !in rest && pending[owners[p]].password == p
      invariant forall e :: e in pending && e !in rest ==>
                pending[e].password in owners && owners[pending[e].password] == e
    {
      var email :| email in rest;
      rest := rest - {email};
      var password := pending[email].password;
      if password in owners && owners[password] != email { return false, owners; }
      owners := owners[password := email];
    }
    OwnedIsUnshared(owners, pending);
    return true, owners;
  }

  // ---------------------------------------------------------------- from one run to the next

  predicate Distinct(emails: seq<string>) { forall i, j :: 0 <= i < j < |emails| ==> emails[i] != emails[j] }

  function Keys(emails: seq<string>): set<string> { set e | e in emails }

  ghost predicate AllSeparable(pending: map<string, Change>) { forall e :: e in pending ==> Separable(e) }

  /** writePendingChanges: one line for each entry; the program sorts them. No file is the same as no lines. */
  method WritePending(pending: map<string, Change>, lib: Library) returns (lines: seq<string>)
    requires AllProper(pending, lib)
    ensures Loaded(lines, lib) == if AllSeparable(pending) then Some(pending) else None
  {
    hide Loaded, Proper, Separable, LineOf;
    lines := [];
    ghost var emails: seq<string> := [];
    var rest := pending.Keys;
    while rest != {}
      invariant rest <= pending.Keys && Keys(emails) == pending.Keys - rest && Distinct(emails)
      invariant forall e :: e in emails ==> e in pending
      invariant lines == Written(emails, pending)
    {
      var email :| email in rest;
      assert email !in Keys(emails) && Keys(emails + [email]) == Keys(emails) + {email};
      rest := rest - {email};
      emails := emails + [email];
      lines := lines + [LineOf(email, pending[email])];
    }
    assert forall e :: e in emails <==> e in Keys(emails);
    FileRoundTripIff(emails, pending, lib);
    assert (map e | e in emails :: pending[e]) == pending;
  }

  /** Planning keeps addresses free of the separator, so that only a dash at the end can make them ambiguous. */
  lemma {:induction false} PreparedIsUncut(accounts: seq<Account>, plans: seq<Plan>, loaded: map<string, Change>,
                                           pending: map<string, Change>, lib: Library)
    requires Listed(accounts, lib) && Uncut(loaded) && Prepared(accounts, plans, loaded, pending)
    ensures Uncut(pending) && (AllSeparable(pending) <==> Dashless(pending))
  {
    hide Contains, Trim, Lower, EndsInDash;
    forall e | e in pending ensures !Contains(e) { assert e in pending.Keys; }
  }

  /** prepareAccountChanges: what it writes can be loaded again exactly when no address ends in a dash. */
  method PrepareAccountChanges(accounts: seq<Account>, lines: seq<string>, lib: Library)
    returns (ok: bool, pending: map<string, Change>, plans: seq<Plan>, written: seq<string>)
    requires Listed(accounts, lib) && Lawful(lib)
    ensures ok ==> Loaded(lines, lib).Some? && Prepared(accounts, plans, Loaded(lines, lib).value, pending)
    ensures ok ==> Unshared(pending) && AllProper(pending, lib) && Uncut(pending)
    ensures ok ==> Loaded(written, lib) == if Dashless(pending) then Some(pending) else None
    ensures var loaded := Loaded(lines, lib);
            loaded.Some? && Unshared(loaded.value) && (forall a :: a in accounts ==> Stands(loaded.value, a)) ==> ok
  {
    hide Loaded, Prepared, Unshared, Stands, AllProper, AllSeparable, Listed, Lawful, Uncut, Dashless;
    pending, plans, written := map[], [], [];
    var loaded := LoadPending(lines, lib);
    if loaded.None? { return false, pending, plans, written; }
    LoadedIsProper(lines, lib);
    ok, pending, plans := PrepareChanges(accounts, loaded.value, lib);
    if !ok { return; }
    PreparedIsUncut(accounts, plans, loaded.value, pending, lib);
    written := WritePending(pending, lib);
  }

  /** prunePendingChanges. */
  method PrunePendingChanges(pending: map<string, Change>, completed: set<string>, lib: Library)
    returns (kept: map<string, Change>, lines: seq<string>)
    requires AllProper(pending, lib) && Uncut(pending)
    ensures kept == pending - (set e | e in completed :: Lower(e)) && AllProper(kept, lib)
    ensures Loaded(lines, lib) == if Dashless(kept) then Some(kept) else None
  {
    kept := pending - (set e | e in completed :: Lower(e));
    lines := WritePending(kept, lib);
  }

  /** The plan of an earlier run is the plan of a later one, as long as its entry was kept. */
  lemma {:induction false} SamePlan(a: Account, plan: Plan, again: Plan, loaded: map<string, Change>,
                                    pending: map<string, Change>, kept: map<string, Change>, later: map<string, Change>)
    requires Planned(a, plan, loaded, pending) && Planned(a, again, kept, later)
    requires Lower(a.email) in kept && kept[Lower(a.email)] == pending[Lower(a.email)]
    ensures again == Plan(plan.change, true)
  {}

  /** A run, however far it got, and a rerun over accounts it did not complete. If no address ends in a dash,
      the rerun cannot fail to prepare, and every account is changed to what was planned for it before. */
  method Rerun(accounts: seq<Account>, lines: seq<string>, completed: set<string>, rest: seq<Account>, lib: Library)
    returns (ok: bool, plans: seq<Plan>, again: Option<seq<Plan>>, ghost pending: map<string, Change>)
    requires Listed(accounts, lib) && Listed(rest, lib) && Lawful(lib)
    requires forall a :: a in rest ==> a in accounts && forall e :: e in completed ==> Lower(e) != Lower(a.email)
    ensures ok ==> Loaded(lines, lib).Some? && Prepared(accounts, plans, Loaded(lines, lib).value, pending)
    ensures ok && Dashless(pending) ==> again.Some? && |again.value| == |rest|
    ensures ok && Dashless(pending) ==>
      forall i, n :: 0 <= i < |accounts| && 0 <= n < |rest| && rest[n] == accounts[i] ==>
        again.value[n] == Plan(plans[i].change, true)
  {
    var first, written, kept, pruned, done, second, other;
    again := None;
    ok, first, plans, written := PrepareAccountChanges(accounts, lines, lib);
    pending := first;
    if !ok { return; }
    kept, pruned := PrunePendingChanges(first, completed, lib);
    done, other, second, written := PrepareAccountChanges(rest, pruned, lib);
    if done { again := Some(second); }
  }
}
