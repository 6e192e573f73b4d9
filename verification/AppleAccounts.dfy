/** The accounts that the Apple tool loads, and what follows for its output and its pending changes: their addresses
    contain no separator, and its passwords no dash. */
module AppleAccounts {
  import opened Options
  import opened Text
  import opened Fields
  import A = AppleLines
  import P = PendingChanges

  /** One entry of the input files: a credential of a sheet, with what its product column says, or a line of a text
      file, with the region its file name says. */
  datatype Entry =
    | Sheet(region: string, icloudOpen: string, twoFactor: bool, credential: string)
    | Line(line: string, region: string)

  const UNKNOWN := "\U{672A}\U{77E5}"

  /** Blank entries, and those of products with two-factor authentication, are not read. */
  predicate PassedOver(e: Entry) {
    match e
    case Sheet(_, _, twoFactor, credential) => Trim(credential) == "" || twoFactor
    case Line(line, _) => Trim(line) == ""
  }

  function WithProduct(a: Option<A.Account>, region: string, icloudOpen: string): Option<A.Account> {
    if a.None? then None else Some(a.value.(region := region, icloudOpen := icloudOpen))
  }

  function Parsed(e: Entry, lib: Library): Option<A.Account> {
    match e
    case Sheet(region, icloudOpen, _, credential) =>
      WithProduct(A.ParseCredential(Trim(credential), lib), region, icloudOpen)
    case Line(line, region) =>
      if |Split(Trim(line))| == 6 then WithProduct(A.ParseCredential(Trim(line), lib), region, UNKNOWN)
      else A.ParseOutputLine(Trim(line), lib)
  }

  /** Whether something is an address does not depend on its case. */
  ghost predicate FoldsCase(lib: Library) { forall s :: lib.isAddress(s) ==> lib.isAddress(Lower(s)) }

  predicate Addressed(email: string, lib: Library) {
    Trim(email) == email == Lower(email) && lib.isAddress(email) && !Contains(email)
  }

  lemma {:induction false} CredentialIsAddressed(raw: string, lib: Library)
    requires FoldsCase(lib) && A.ParseCredential(raw, lib).Some?
    ensures Addressed(A.ParseCredential(raw, lib).value.email, lib)
  {
    hide Split, Trim, Contains, Lower, A.ParseAnswer;
    P.LowerOfTrimmed(Split(raw)[0]);
    AddressIsUncut(raw, 0);
    assert lib.isAddress(Trim(Split(raw)[0]));
  }

  /** The address of a loaded account is trimmed and in lower case, and the separator is not in it. */
  lemma {:induction false} ParsedIsAddressed(e: Entry, lib: Library)
    requires FoldsCase(lib) && Parsed(e, lib).Some?
    ensures Addressed(Parsed(e, lib).value.email, lib)
  {
    hide Split, Join, Trim, FoldsCase, Addressed, A.ParseCredential;
    match e {
      case Sheet(_, _, _, credential) => CredentialIsAddressed(Trim(credential), lib);
      case Line(line, _) =>
        var raw := Trim(line);
        if |Split(raw)| == 6 {
          CredentialIsAddressed(raw, lib);
        } else {
          CredentialIsAddressed(Join(Split(raw)[2..]), lib);
        }
    }
  }

  /** The accounts as far as changes are planned for them. */
  function ToPlan(accounts: seq<A.Account>): (planned: seq<P.Account>)
    ensures |planned| == |accounts|
  {
    seq(|accounts|, i requires 0 <= i < |accounts| =>
      P.Account(accounts[i].email, accounts[i].password, accounts[i].birthdayISO))
  }

  function Emails(accounts: seq<A.Account>): set<string> { set a | a in accounts :: a.email }

  /** Each account was read from an entry, is not completed, and has an address of its own. */
  ghost predicate Fresh(accounts: seq<A.Account>, entries: seq<Entry>, completed: set<string>, lib: Library) {
    && (forall a :: a in accounts ==>
          a.email !in completed && exists e :: e in entries && !PassedOver(e) && Parsed(e, lib) == Some(a))
    && forall i, j :: 0 <= i < j < |accounts| ==> accounts[i].email != accounts[j].email
  }

  /** loadAccounts; None stands for its errors. */
  method LoadAccounts(entries: seq<Entry>, completed: set<string>, lib: Library)
    returns (result: Option<seq<A.Account>>)
    requires FoldsCase(lib)
    ensures result.None? <==> exists e :: e in entries && !PassedOver(e) && Parsed(e, lib).None?
    ensures result.Some? ==> Fresh(result.value, entries, completed, lib) && P.Listed(ToPlan(result.value), lib)
    ensures result.Some? ==> forall e :: e in entries && !PassedOver(e) ==>
              Parsed(e, lib).value.email in completed + Emails(result.value)
  {
    hide Parsed, PassedOver, FoldsCase, Lower;
    var accounts: seq<A.Account>, seen: set<string> := [], {};
    for i := 0 to |entries|
      invariant Fresh(accounts, entries, completed, lib) && seen == Emails(accounts)
      invariant forall n :: 0 <= n < i && !PassedOver(entries[n]) ==>
                  Parsed(entries[n], lib).Some? && Parsed(entries[n], lib).value.email in completed + seen
    {
      if PassedOver(entries[i]) { continue; }
      var account := Parsed(entries[i], lib);
      if account.None? { return None; }
      ParsedIsAddressed(entries[i], lib);
      var key := Lower(account.value.email);
      if key in completed { continue; }
      if key in seen { continue; }
      OneMoreFresh(accounts, entries, completed, account.value, i, lib);
      accounts := accounts + [account.value];
      seen := seen + {key};
    }
    FreshAreListed(accounts, entries, completed, lib);
    return Some(accounts);
  }

  lemma {:induction false} OneMoreFresh(accounts: seq<A.Account>, entries: seq<Entry>, completed: set<string>,
                                        a: A.Account, i: nat, lib: Library)
    requires Fresh(accounts, entries, completed, lib) && i < |entries| && !PassedOver(entries[i])
    requires Parsed(entries[i], lib) == Some(a) && a.email !in completed && a.email !in Emails(accounts)
    ensures Fresh(accounts + [a], entries, completed, lib) && Emails(accounts + [a]) == Emails(accounts) + {a.email}
  {
    hide Parsed, PassedOver;
    assert entries[i] in entries;
    assert forall k :: 0 <= k < |accounts| ==> accounts[k].email in Emails(accounts);
  }

  lemma {:induction false} FreshAreListed(accounts: seq<A.Account>, entries: seq<Entry>, completed: set<string>,
                                          lib: Library)
    requires FoldsCase(lib) && Fresh(accounts, entries, completed, lib)
    ensures P.Listed(ToPlan(accounts), lib)
  {
    hide Parsed, PassedOver, FoldsCase, Contains, Trim, Lower;
    forall i | 0 <= i < |accounts| ensures Addressed(accounts[i].email, lib) {
      assert accounts[i] in accounts;
      var e :| e in entries && !PassedOver(e) && Parsed(e, lib) == Some(accounts[i]);
      ParsedIsAddressed(e, lib);
    }
  }

  // ---------------------------------------------------------------- what is written for them

  /** With a password the tool made, an output line is read back as it was meant exactly when neither region, nor
      iCloud flag, nor address ends in a dash, and no answer has an opening parenthesis. */
  lemma {:induction false} OutputRoundTripIff(account: A.Account, result: A.Output, lib: Library)
    requires A.Formattable(account, result) && A.Loaded(account, result, lib) && P.ValidPassword(result.password)
    ensures A.LineFields(account, result) != []
    ensures A.ParseOutputLine(Join(A.LineFields(account, result)), lib) == Some(A.Meant(account, result, lib)) <==>
            && !EndsInDash(Sanitize(A.RegionOf(account, result))) && !EndsInDash(account.icloudOpen)
            && !EndsInDash(account.email) && forall q :: q in result.questions ==> '(' !in Sanitize(q.answer)
  {
    hide Sanitize, Join, A.Formattable, A.LineFields, A.ParseOutputLine, A.Meant, A.Loaded;
    A.RoundTripIff(account, result, lib);
    PasswordIsKept(result.password);
  }

  lemma {:induction false} PasswordIsKept(p: string)
    requires P.ValidPassword(p)
    ensures Sanitize(p) == p && !EndsInDash(p) && A.Supported(p)
  {
    hide P.Kinds, Trim, Contains;
    P.NoDash(p);
    P.ForeignCharacters(p);
    assert OneLine(p);
    assert Spaced(p) == p;
    NothingToReplace(p);
  }

  // ---------------------------------------------------------------- accounts for which that fails

  const PASSWORD := "Ab1!Ab1!Ab1!Ab1!"

  /** A line of a successful account whose address is followed by a blank, and the account it is read as. */
  function SoldFields(email: string): seq<string> {
    ["US", "Y", email + " ", "p", "q(a)", "r(b)", "s(c)", "1990-01-02"]
  }

  function Sold(email: string): A.Account {
    A.Account("US", "Y", email, "p", [A.Answer("q", "a"), A.Answer("r", "b"), A.Answer("s", "c")], "1990-01-02",
      "1990-01-02")
  }

  /** What the tool changes it to. */
  function Changed(answer: string): A.Output {
    A.Output("US", PASSWORD, "1991-02-03", [A.Answer("q", answer), A.Answer("r", "b"), A.Answer("s", "c")])
  }

  predicate Knows(lib: Library, email: string) {
    lib.isAddress(email) && lib.date("1990-01-02") == Some("1990-01-02") && lib.date("1991-02-03") == Some("1991-02-03")
  }

  lemma {:induction false} SampleIsPlain()
    ensures A.Plain("US") && A.Plain("Y") && A.Plain("p") && A.Plain("a") && A.Plain("b") && A.Plain("c")
    ensures A.Plain("q") && A.Plain("r") && A.Plain("s")
  {}

  lemma {:induction false} DatesArePlain()
    ensures A.Plain("1990-01-02") && A.Plain("1991-02-03")
  {}

  lemma {:induction false} TrimBlank(s: string)
    requires s != "" && !IsSpace(s[0]) && !IsSpace(s[|s| - 1])
    ensures Trim(s + " ") == s
  {
    var t := s + " ";
    assert TrimLeft(t) == t && t[..|t| - 1] == s;
  }

  lemma {:induction false} SoldIsClean(email: string)
    requires A.Plain(email)
    ensures Clean(SoldFields(email))
  {
    hide Contains;
    var f := SoldFields(email);
    DatesArePlain();
    A.PlainHasNoSeparator(f[2]);
    forall i | 0 <= i < 8 && i != 2 && i != 7 ensures Separable(f[i]) { A.PlainHasNoSeparator(f[i]); }
    A.PlainHasNoSeparator("1990-01-02");
    assert f[7] == "1990-01-02" && Separable(f[2]);
  }

  /** The line is one that the tool loads. */
  lemma {:induction false} SoldIsLoaded(email: string, lib: Library)
    requires A.Plain(email) && Lower(email) == email && Knows(lib, email)
    ensures A.ParseOutputLine(Join(SoldFields(email)), lib) == Some(Sold(email))
  {
    hide Split, Join, Clean, SoldFields, A.Read, A.ParseOutputLine, A.Plain;
    var f := SoldFields(email);
    SoldIsRead(email, lib);
    SoldIsClean(email);
    SplitJoinIff(f);
    A.ParseReads(Join(f), lib);
  }

  lemma {:induction false} SoldIsRead(email: string, lib: Library)
    requires A.Plain(email) && Lower(email) == email && Knows(lib, email)
    ensures |SoldFields(email)| == 8 && A.Read(SoldFields(email), lib) == Some(Sold(email))
  {
    hide Split, Join, Trim, Contains, Lower, A.ParseAnswer, A.Plain, A.Shown;
    var f := SoldFields(email);
    PlainBlank(email);
    SampleIsPlain();
    DatesArePlain();
    A.PlainIsKept("US");
    A.PlainIsKept("Y");
    A.PlainIsKept("p");
    A.PlainIsKept("1990-01-02");
    AnswerIsRead(A.Answer("q", "a"));
    AnswerIsRead(A.Answer("r", "b"));
    AnswerIsRead(A.Answer("s", "c"));
    SoldAnswers(email);
  }

  lemma {:induction false} SoldAnswers(email: string)
    ensures var f := SoldFields(email);
            && A.Shown(A.Answer("q", "a")) == f[4] && A.Shown(A.Answer("r", "b")) == f[5]
            && A.Shown(A.Answer("s", "c")) == f[6] && OneLine("p")
  {}

  lemma {:induction false} PlainBlank(s: string)
    requires A.Plain(s)
    ensures Trim(s + " ") == s
  {
    TrimBlank(s);
  }

  lemma {:induction false} AnswerIsRead(a: A.Answer)
    requires A.Plain(a.question) && A.Plain(a.answer) && '(' !in a.answer
    ensures A.ParseAnswer(Trim(A.Shown(a))) == a
  {
    hide Trim, A.ParseAnswer, A.Shown;
    A.PlainIsKept(a.question);
    A.PlainIsKept(a.answer);
    A.ShownIsTrimmed(a);
    A.AnswerRoundTripIff(a);
  }

  lemma {:induction false} SoldIsFormattable(email: string, answer: string, lib: Library)
    requires A.Plain(email) && A.Plain(answer) && Lower(email) == email && Knows(lib, email)
    ensures A.Formattable(Sold(email), Changed(answer)) && A.Loaded(Sold(email), Changed(answer), lib)
    ensures Sanitize(answer) == answer && P.ValidPassword(PASSWORD)
  {
    hide Sanitize, Trim, A.Supported, A.Shown, A.Plain, A.Complete;
    var account, result := Sold(email), Changed(answer);
    var q := result.questions;
    SampleIsPlain();
    DatesArePlain();
    P.SampleIsValid();
    PasswordIsKept(PASSWORD);
    A.PlainIsKept("US");
    A.PlainIsKept("Y");
    A.PlainIsKept(email);
    A.PlainIsKept(answer);
    A.PlainIsKept("1991-02-03");
    forall i | 0 <= i < 3 ensures A.Supported(A.Shown(q[i])) && A.Clear(q[i]) == q[i] { A.ShownIsSupported(q[i]); }
    assert A.LineFields(account, result) ==
      ["US", "Y", email, PASSWORD] + [A.Shown(q[0]), A.Shown(q[1]), A.Shown(q[2])] + ["1991-02-03"];
    ChangedIsComplete(answer);
  }

  lemma {:induction false} ChangedIsComplete(answer: string)
    requires A.Plain(answer)
    ensures A.Complete(Changed(answer).questions)
  {
    hide Sanitize, A.Plain;
    SampleIsPlain();
    var questions := Changed(answer).questions;
    forall i | 0 <= i < 3 ensures A.Clear(questions[i]) == questions[i] { A.ShownIsSupported(questions[i]); }
    PlainIsNotEmpty(answer);
  }

  lemma {:induction false} PlainIsNotEmpty(s: string)
    requires A.Plain(s)
    ensures s != ""
  {}

  lemma {:induction false} AddressesArePlain()
    ensures A.Plain("a@b-") && Lower("a@b-") == "a@b-" && A.Plain("a@b.co") && Lower("a@b.co") == "a@b.co"
    ensures A.Plain("a(1)") && EndsInDash("a@b-")
  {}

  /** A domain may end in a dash as far as addresses are parsed, and an account with one is loaded if a blank follows.
      Then its output line is not read back as it was meant. */
  lemma {:induction false} DashIsMisread(lib: Library)
    requires Knows(lib, "a@b-")
    ensures var account, result := Sold("a@b-"), Changed("a");
            && A.ParseOutputLine(Join(SoldFields("a@b-")), lib) == Some(account) && P.ValidPassword(result.password)
            && A.Formattable(account, result) && A.Loaded(account, result, lib) && A.LineFields(account, result) != []
            && A.ParseOutputLine(Join(A.LineFields(account, result)), lib) != Some(A.Meant(account, result, lib))
  {
    hide *;
    AddressesArePlain();
    SampleIsPlain();
    SoldIsLoaded("a@b-", lib);
    SoldIsFormattable("a@b-", "a", lib);
    ChangedIs("a@b-", "a");
    OutputRoundTripIff(Sold("a@b-"), Changed("a"), lib);
  }

  /** Nor is the line of an ordinary account for which an answer with an opening parenthesis is chosen. */
  lemma {:induction false} ParenthesisIsMisread(lib: Library)
    requires Knows(lib, "a@b.co")
    ensures var account, result := Sold("a@b.co"), Changed("a(1)");
            && A.ParseOutputLine(Join(SoldFields("a@b.co")), lib) == Some(account) && P.ValidPassword(result.password)
            && A.Formattable(account, result) && A.Loaded(account, result, lib) && A.LineFields(account, result) != []
            && A.ParseOutputLine(Join(A.LineFields(account, result)), lib) != Some(A.Meant(account, result, lib))
  {
    hide *;
    AddressesArePlain();
    SoldIsLoaded("a@b.co", lib);
    SoldIsFormattable("a@b.co", "a(1)", lib);
    ChangedIs("a@b.co", "a(1)");
    assert '(' in "a(1)" by { assert "a(1)"[1] == '('; }
    OutputRoundTripIff(Sold("a@b.co"), Changed("a(1)"), lib);
  }

  lemma {:induction false} ChangedIs(email: string, answer: string)
    ensures Changed(answer).password == PASSWORD && A.Answer("q", answer) in Changed(answer).questions
    ensures Sold(email).email == email
  {
    assert Changed(answer).questions[0] == A.Answer("q", answer);
  }

  /** The pending change of such an account is written down, and then the file is refused. */
  lemma {:induction false} DashIsRefused(lib: Library)
    requires Knows(lib, "a@b-")
    ensures var e, c := "a@b-", P.Change(PASSWORD, "1991-02-03");
            && A.ParseOutputLine(Join(SoldFields(e)), lib) == Some(Sold(e))
            && P.Proper(e, c, lib) && P.Loaded(P.Written([e], map[e := c]), lib).None?
  {
    hide P.ValidPassword, P.Loaded, P.Written, A.ParseOutputLine, Join, Contains, Trim, A.Plain;
    var e, c := "a@b-", P.Change(PASSWORD, "1991-02-03");
    AddressesArePlain();
    DatesArePlain();
    SoldIsLoaded(e, lib);
    P.SampleIsValid();
    A.PlainIsKept(e);
    A.PlainIsKept("1991-02-03");
    P.FileRoundTripIff([e], map[e := c], lib);
    assert e in [e];
  }

  // ---------------------------------------------------------------- what an entry means

  /** Which entries are not read, and how the others are: a text line of six fields is a credential of unknown iCloud
      state, any other line is a successful account. */
  lemma {:induction false} EntriesAre(region: string, icloudOpen: string, twoFactor: bool, text: string, lib: Library)
    ensures PassedOver(Sheet(region, icloudOpen, twoFactor, text)) <==> twoFactor || Blank(text)
    ensures PassedOver(Line(text, region)) <==> Blank(text)
    ensures Parsed(Sheet(region, icloudOpen, twoFactor, text), lib).Some? <==> A.ParseCredential(Trim(text), lib).Some?
    ensures A.ParseCredential(Trim(text), lib).Some? ==>
              var a := A.ParseCredential(Trim(text), lib).value;
              && Parsed(Sheet(region, icloudOpen, twoFactor, text), lib) ==
                 Some(a.(region := region, icloudOpen := icloudOpen))
              && (|Split(Trim(text))| == 6 ==>
                    Parsed(Line(text, region), lib) == Some(a.(region := region, icloudOpen := "\U{672A}\U{77E5}")))
    ensures |Split(Trim(text))| != 6 ==> Parsed(Line(text, region), lib) == A.ParseOutputLine(Trim(text), lib)
  {}
}
