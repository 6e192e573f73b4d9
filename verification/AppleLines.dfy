/** The account lines of the Apple tool: formatting a result, parsing it again, and replacing its region. */
module AppleLines {
  import opened Options
  import opened Text
  import opened Fields

  datatype Answer = Answer(question: string, answer: string)

  datatype Account = Account(region: string, icloudOpen: string, email: string, password: string,
                             current: seq<Answer>, birthday: string, birthdayISO: string)

  /** What an account was changed to. */
  datatype Output = Output(region: string, password: string, birthday: string, questions: seq<Answer>)

  // ---------------------------------------------------------------- security answers

  /** strings.LastIndex(s, "("). */
  function LastOpen(s: string): (n: int)
    ensures -1 <= n < |s|
    ensures n >= 0 ==> s[n] == '('
    ensures forall i :: n < i < |s| ==> s[i] != '('
  {
    if s == "" then -1 else if s[|s| - 1] == '(' then |s| - 1 else LastOpen(s[..|s| - 1])
  }

  function ParseAnswer(raw: string): Answer {
    var r := Trim(raw);
    if r != "" && r[|r| - 1] == ')' && LastOpen(r) > 0 then
      Answer(Trim(r[..LastOpen(r)]), Trim(r[LastOpen(r) + 1..|r| - 1]))
    else Answer("", r)
  }

  function Shown(a: Answer): string { a.question + "(" + a.answer + ")" }

  lemma {:induction false} ShownIsTrimmed(a: Answer)
    requires Trim(a.question) == a.question != ""
    ensures Trim(Shown(a)) == Shown(a) != "" && Shown(a)[|Shown(a)| - 1] == ')'
  {
    var s := Shown(a);
    assert s[0] == a.question[0];
  }

  lemma {:induction false} ShownOpensAt(a: Answer)
    ensures var n, q := LastOpen(Shown(a)), |a.question|;
            n >= q && (n == q <==> '(' !in a.answer)
  {
    var s, q := Shown(a), |a.question|;
    var n := LastOpen(s);
    assert s[q] == '(' && s[|s| - 1] == ')';
    if n > q { assert a.answer[n - q - 1] == s[n]; }
    forall i | 0 <= i < |a.answer| ensures a.answer[i] == s[q + 1 + i] {}
  }

  /** An answer is read back as it was shown exactly when it has no opening parenthesis. */
  lemma {:induction false} AnswerRoundTripIff(a: Answer)
    requires Trim(a.question) == a.question != "" && Trim(a.answer) == a.answer
    ensures ParseAnswer(Shown(a)) == a <==> '(' !in a.answer
  {
    hide Trim, LastOpen;
    ShownIsTrimmed(a);
    ShownOpensAt(a);
    var s, q := Shown(a), |a.question|;
    var n := LastOpen(s);
    if n == q {
      assert s[..q] == a.question && s[q + 1..|s| - 1] == a.answer;
    } else {
      TrimIsShort(s[n + 1..|s| - 1]);
    }
  }

  lemma {:induction false} TrimIsShort(s: string)
    ensures |Trim(s)| <= |s| && (|Trim(s)| == |s| ==> Trim(s) == s)
  {
    TrimIsPart(s);
  }

  // ---------------------------------------------------------------- formatting

  function RegionOf(account: Account, result: Output): string {
    if Trim(result.region) == "" then Trim(account.region) else Trim(result.region)
  }

  /** The region found wins over the one the account came with. */
  lemma {:induction false} RegionIs(account: Account, result: Output)
    ensures !Blank(result.region) ==> RegionOf(account, result) == Trim(result.region)
    ensures Blank(result.region) ==> RegionOf(account, result) == Trim(account.region)
  {}

  function Questions(questions: seq<Answer>): (shown: seq<string>)
    ensures |shown| == |questions|
    ensures forall i :: 0 <= i < |questions| ==>
              shown[i] == Shown(Answer(Sanitize(questions[i].question), Sanitize(questions[i].answer)))
  {
    seq(|questions|, i requires 0 <= i < |questions| =>
      Shown(Answer(Sanitize(questions[i].question), Sanitize(questions[i].answer))))
  }

  function LineFields(account: Account, result: Output): seq<string> {
    [Sanitize(RegionOf(account, result)), account.icloudOpen, account.email, Sanitize(result.password)]
    + Questions(result.questions) + [Sanitize(result.birthday)]
  }

  predicate Complete(questions: seq<Answer>) {
    forall q :: q in questions ==> Sanitize(q.question) != "" && Sanitize(q.answer) != ""
  }

  predicate Supported(field: string) { field != "" && !Contains(field) && OneLine(field) }

  predicate Formattable(account: Account, result: Output) {
    && RegionOf(account, result) != "" && Complete(result.questions)
    && forall f :: f in LineFields(account, result) ==> Supported(f)
  }

  /** No line is made exactly when there is no region, a question or an answer is empty, or a field is empty, contains
      the separator or breaks the line. */
  lemma {:induction false} FormattableIff(account: Account, result: Output)
    ensures Formattable(account, result) <==>
            && !(Blank(result.region) && Blank(account.region))
            && (forall q :: q in result.questions ==> Sanitize(q.question) != "" && Sanitize(q.answer) != "")
            && (forall f :: f in LineFields(account, result) ==>
                  f != "" && !Contains(f) && '\r' !in f && '\n' !in f)
  {
    hide Sanitize, Contains, Trim, LineFields;
    assert RegionOf(account, result) == "" <==> Blank(result.region) && Blank(account.region);
  }

  /** formatOutputLine; None stands for its errors. */
  method FormatOutputLine(account: Account, result: Output) returns (line: Option<string>)
    ensures line == if Formattable(account, result) then Some(Join(LineFields(account, result))) else None
  {
    hide Sanitize, Contains, OneLine, Shown, Trim;
    var region := Trim(result.region);
    if region == "" { region := Trim(account.region); }
    if region == "" { return None; }
    var fields := [Sanitize(region), account.icloudOpen, account.email, Sanitize(result.password)];
    ghost var head := fields;
    for i := 0 to |result.questions|
      invariant fields == head + Questions(result.questions)[..i]
      invariant Complete(result.questions[..i])
    {
      var question, answer := Sanitize(result.questions[i].question), Sanitize(result.questions[i].answer);
      if question == "" || answer == "" {
        assert result.questions[i] in result.questions;
        return None;
      }
      assert result.questions[..i + 1] == result.questions[..i] + [result.questions[i]];
      fields := fields + [Shown(Answer(question, answer))];
    }
    assert result.questions[..|result.questions|] == result.questions;
    fields := fields + [Sanitize(result.birthday)];
    assert fields == LineFields(account, result);
    var supported := CheckFields(fields);
    return if supported then Some(Join(fields)) else None;
  }

  method CheckFields(fields: seq<string>) returns (supported: bool)
    ensures supported <==> forall f :: f in fields ==> Supported(f)
  {
    hide Supported;
    for i := 0 to |fields|
      invariant forall j :: 0 <= j < i ==> Supported(fields[j])
    {
      if !Supported(fields[i]) { return false; }
    }
    return true;
  }

  // ---------------------------------------------------------------- parsing

  function ParseCredential(raw: string, lib: Library): Option<Account> {
    var parts := Split(raw);
    if |parts| != 6 then None
    else
      var email, password, birthday := Trim(parts[0]), Trim(parts[1]), Trim(parts[5]);
      var current := [ParseAnswer(Trim(parts[2])), ParseAnswer(Trim(parts[3])), ParseAnswer(Trim(parts[4]))];
      if !lib.isAddress(email) || password == "" || !OneLine(password) || lib.date(birthday).None? then None
      else if current[0].answer == "" || current[1].answer == "" || current[2].answer == "" then None
      else Some(Account("", "", Lower(email), password, current, birthday, lib.date(birthday).value))
  }

  function ParseOutputLine(raw: string, lib: Library): Option<Account> {
    var parts := Split(raw);
    if |parts| != 8 then None
    else
      var account := ParseCredential(Join(parts[2..]), lib);
      if account.None? || Trim(parts[0]) == "" || Trim(parts[1]) == "" then None
      else Some(account.value.(region := Trim(parts[0]), icloudOpen := Trim(parts[1])))
  }

  /** What a line of eight parts says, part by part: parsing the rejoined credential loses nothing. */
  function Read(parts: seq<string>, lib: Library): Option<Account>
    requires |parts| == 8
  {
    var current := [ParseAnswer(Trim(parts[4])), ParseAnswer(Trim(parts[5])), ParseAnswer(Trim(parts[6]))];
    if !lib.isAddress(Trim(parts[2])) || Trim(parts[3]) == "" || !OneLine(Trim(parts[3])) ||
      lib.date(Trim(parts[7])).None? then None
    else if current[0].answer == "" || current[1].answer == "" || current[2].answer == "" then None
    else if Trim(parts[0]) == "" || Trim(parts[1]) == "" then None
    else
      Some(Account(Trim(parts[0]), Trim(parts[1]), Lower(Trim(parts[2])), Trim(parts[3]), current, Trim(parts[7]),
        lib.date(Trim(parts[7])).value))
  }

  lemma {:induction false} ParseReads(raw: string, lib: Library)
    requires |Split(raw)| == 8
    ensures ParseOutputLine(raw, lib) == Read(Split(raw), lib)
  {
    hide Split, Join, Trim, ParseAnswer, OneLine, Lower;
    SuffixIsStable(raw, 2);
  }

  // ---------------------------------------------------------------- round trip

  /** What a formatted line is meant to say. */
  function Meant(account: Account, result: Output, lib: Library): Account
    requires |result.questions| == 3 && lib.date(Sanitize(result.birthday)).Some?
  {
    var q := result.questions;
    Account(Sanitize(RegionOf(account, result)), account.icloudOpen, account.email, Sanitize(result.password),
      [Clear(q[0]), Clear(q[1]), Clear(q[2])], Sanitize(result.birthday), lib.date(Sanitize(result.birthday)).value)
  }

  function Clear(a: Answer): Answer { Answer(Sanitize(a.question), Sanitize(a.answer)) }

  /** Nothing before a separator ends in a dash, and no answer contains an opening parenthesis. */
  predicate Unambiguous(account: Account, result: Output) {
    && !EndsInDash(Sanitize(RegionOf(account, result))) && !EndsInDash(account.icloudOpen)
    && !EndsInDash(account.email) && !EndsInDash(Sanitize(result.password))
    && forall q :: q in result.questions ==> '(' !in Sanitize(q.answer)
  }

  /** Accounts as the loaders produce them, with a result for all three questions. */
  predicate Loaded(account: Account, result: Output, lib: Library) {
    && |result.questions| == 3
    && Trim(account.icloudOpen) == account.icloudOpen
    && Trim(account.email) == account.email && Lower(account.email) == account.email && lib.isAddress(account.email)
    && lib.date(Sanitize(result.birthday)).Some?
  }

  /** A formatted line is parsed to what it was meant to say exactly when it is unambiguous. */
  lemma {:induction false} RoundTripIff(account: Account, result: Output, lib: Library)
    requires Formattable(account, result) && Loaded(account, result, lib)
    ensures LineFields(account, result) != []
    ensures ParseOutputLine(Join(LineFields(account, result)), lib) == Some(Meant(account, result, lib)) <==>
            Unambiguous(account, result)
  {
    hide Split, Join, Read, ParseOutputLine, Formattable, LineFields, Meant, Unambiguous, Clean, Shown, Sanitize;
    FieldsAre(account, result);
    var fields := LineFields(account, result);
    var line := Join(fields);
    SplitJoinIff(fields);
    CleanIff(account, result);
    AnswersIff(account, result);
    if Split(line) == fields {
      ParseReads(line, lib);
      ReadFields(account, result, lib);
    } else if ParseOutputLine(line, lib) == Some(Meant(account, result, lib)) {
      ParsedIsEight(line, lib);
      ParseReads(line, lib);
      JoinSplit(line);
      ReadIsLong(account, result, lib, Split(line));
      SameParts(Split(line), fields);
      assert false;
    }
  }

  /** A trimmed line without two dashes in a row: sanitising keeps it. */
  predicate Plain(s: string) {
    && s != "" && !IsSpace(s[0]) && !IsSpace(s[|s| - 1]) && OneLine(s)
    && forall i :: 0 < i < |s| ==> s[i] == '-' ==> s[i - 1] != '-'
  }

  lemma {:induction false} PlainHasNoSeparator(s: string)
    requires forall i :: 0 < i < |s| ==> s[i] == '-' ==> s[i - 1] != '-'
    ensures !Contains(s)
  {}

  lemma {:induction false} PlainIsKept(s: string)
    requires Plain(s)
    ensures Supported(s) && Sanitize(s) == s && Trim(s) == s
  {
    hide Trim, Contains;
    PlainHasNoSeparator(s);
    assert Spaced(s) == s;
    NothingToReplace(s);
  }

  lemma {:induction false} ShownIsSupported(a: Answer)
    requires Plain(a.question) && Plain(a.answer)
    ensures Supported(Shown(a)) && Clear(a) == a
  {
    hide Sanitize, Contains, Trim;
    PlainIsKept(a.question);
    PlainIsKept(a.answer);
    PlainHasNoSeparator(Shown(a));
  }

  lemma {:induction false} ParsedIsEight(line: string, lib: Library)
    ensures ParseOutputLine(line, lib).Some? ==> |Split(line)| == 8
  {}

  lemma {:induction false} FieldsAre(account: Account, result: Output)
    requires Formattable(account, result) && |result.questions| == 3
    ensures var f := LineFields(account, result);
            && |f| == 8 && f[0] == Sanitize(RegionOf(account, result)) && f[1] == account.icloudOpen
            && f[2] == account.email
            && f[3] == Sanitize(result.password) && f[7] == Sanitize(result.birthday)
            && (forall i :: 0 <= i < 3 ==> f[4 + i] == Shown(Clear(result.questions[i])))
            && (forall i :: 0 <= i < 8 ==> Supported(f[i]))
  {
    hide Sanitize, Supported, Shown, RegionOf;
    var f := LineFields(account, result);
    assert forall i :: 0 <= i < 8 ==> f[i] in f;
  }

  lemma {:induction false} CleanIff(account: Account, result: Output)
    requires Formattable(account, result) && |result.questions| == 3
    ensures var f := LineFields(account, result);
            Clean(f) <==> !EndsInDash(f[0]) && !EndsInDash(f[1]) && !EndsInDash(f[2]) && !EndsInDash(f[3])
  {
    hide Sanitize, RegionOf, Contains, LineFields, Formattable;
    FieldsAre(account, result);
    var f := LineFields(account, result);
    assert forall i :: 0 <= i < 8 ==> Supported(f[i]);
    assert forall i :: 4 <= i < 7 ==> f[i] == Shown(Clear(result.questions[i - 4])) && !EndsInDash(f[i]);
    assert Clean(f) <==> forall i :: 0 <= i < 7 ==> Separable(f[i]);
  }

  lemma {:induction false} AnswersIff(account: Account, result: Output)
    requires |result.questions| == 3
    ensures var f := LineFields(account, result);
            Unambiguous(account, result) <==>
              !EndsInDash(f[0]) && !EndsInDash(f[1]) && !EndsInDash(f[2]) && !EndsInDash(f[3])
              && forall i :: 0 <= i < 3 ==> '(' !in Sanitize(result.questions[i].answer)
  {
    hide Sanitize, RegionOf, Shown;
  }

  /** Reading the fields of a formatted line gives what was meant, up to the answers. */
  lemma {:induction false} ReadFields(account: Account, result: Output, lib: Library)
    requires Formattable(account, result) && Loaded(account, result, lib)
    ensures |LineFields(account, result)| == 8
    ensures Read(LineFields(account, result), lib) == Some(Meant(account, result, lib)) <==>
            forall i :: 0 <= i < 3 ==> '(' !in Sanitize(result.questions[i].answer)
  {
    hide Sanitize, RegionOf, Contains, LineFields, Formattable, Shown, ParseAnswer, Trim, Lower;
    FieldsAre(account, result);
    var f, q := LineFields(account, result), result.questions;
    SanitizeIsClean(RegionOf(account, result));
    SanitizeIsClean(result.password);
    SanitizeIsClean(result.birthday);
    forall i | 0 <= i < 3
      ensures ParseAnswer(Trim(f[4 + i])) == Clear(q[i]) <==> '(' !in Sanitize(q[i].answer)
      ensures Clear(q[i]).answer != ""
    {
      CompleteAnswer(account, result, i);
      SanitizeIsClean(q[i].question);
      SanitizeIsClean(q[i].answer);
      ShownIsTrimmed(Clear(q[i]));
      AnswerRoundTripIff(Clear(q[i]));
    }
    assert Supported(f[0]) && Supported(f[1]) && Supported(f[3]);
  }

  lemma {:induction false} CompleteAnswer(account: Account, result: Output, i: nat)
    requires Formattable(account, result) && i < |result.questions|
    ensures Clear(result.questions[i]).question != "" && Clear(result.questions[i]).answer != ""
  {
    assert result.questions[i] in result.questions;
  }

  /** Whatever parts are read as what was meant are at least as long as the fields that were written. */
  lemma {:induction false} ReadIsLong(account: Account, result: Output, lib: Library, parts: seq<string>)
    requires Formattable(account, result) && Loaded(account, result, lib) && |parts| == 8
    requires Read(parts, lib) == Some(Meant(account, result, lib))
    ensures |LineFields(account, result)| == 8 &&
            forall i :: 0 <= i < 8 ==> |LineFields(account, result)[i]| <= |parts[i]|
  {
    hide Sanitize, RegionOf, Contains, LineFields, Formattable, Shown, ParseAnswer, Trim;
    FieldsAre(account, result);
    var f, q := LineFields(account, result), result.questions;
    forall i | 0 <= i < 8 ensures |Trim(parts[i])| <= |parts[i]| { TrimIsShort(parts[i]); }
    forall i | 4 <= i < 7 ensures |f[i]| <= |parts[i]| {
      CompleteAnswer(account, result, i - 4);
      assert ParseAnswer(Trim(parts[i])) == Clear(q[i - 4]);
      AnswerIsLong(Trim(parts[i]), Clear(q[i - 4]));
      assert f[4 + (i - 4)] == Shown(Clear(q[i - 4]));
    }
    assert |f[0]| <= |parts[0]| && |f[1]| <= |parts[1]| && |f[2]| <= |parts[2]| && |f[3]| <= |parts[3]| &&
      |f[7]| <= |parts[7]|;
  }

  lemma {:induction false} AnswerIsLong(raw: string, a: Answer)
    requires ParseAnswer(raw) == a && a.question != ""
    ensures |Shown(a)| <= |raw|
  {
    var r := Trim(raw);
    TrimIsShort(raw);
    var n := LastOpen(r);
    TrimIsShort(r[..n]);
    TrimIsShort(r[n + 1..|r| - 1]);
  }

  lemma {:induction false} JoinIsLong(parts: seq<string>, fields: seq<string>)
    requires |parts| == |fields| > 0 && forall i :: 0 <= i < |fields| ==> |fields[i]| <= |parts[i]|
    ensures |Join(fields)| <= |Join(parts)|
    decreases |fields|
  {
    if |fields| > 1 { JoinIsLong(parts[1..], fields[1..]); }
  }

  lemma {:induction false} SameParts(parts: seq<string>, fields: seq<string>)
    requires |parts| == |fields| > 0 && forall i :: 0 <= i < |fields| ==> |fields[i]| <= |parts[i]|
    requires Join(parts) == Join(fields)
    ensures parts == fields
    decreases |fields|
  {
    if |fields| > 1 {
      var p, f := parts[0], fields[0];
      JoinIsLong(parts[1..], fields[1..]);
      var line := Join(parts);
      assert |line| == |p| + 4 + |Join(parts[1..])| == |f| + 4 + |Join(fields[1..])|;
      assert p == line[..|p|] == line[..|f|] == f;
      assert Join(parts[1..]) == line[|p| + 4..] == line[|f| + 4..] == Join(fields[1..]);
      SameParts(parts[1..], fields[1..]);
      assert parts == [p] + parts[1..] && fields == [f] + fields[1..];
    }
  }

  // ---------------------------------------------------------------- replacing the region

  const BOM: string := "\U{FEFF}"

  function Ending(raw: string): string {
    if raw == "" || raw[|raw| - 1] != '\n' then ""
    else if |raw| > 1 && raw[|raw| - 2] == '\r' then "\r\n" else "\n"
  }

  function Start(raw: string): string { if BOM <= raw[..|raw| - |Ending(raw)|] then BOM else "" }

  /** A raw line is a byte order mark or nothing, the content, and a line ending or nothing. */
  function Content(raw: string): (content: string)
    ensures raw == Start(raw) + content + Ending(raw)
  {
    var body := raw[..|raw| - |Ending(raw)|];
    assert raw == body + raw[|body|..] && raw[|body|..] == Ending(raw);
    body[|Start(raw)|..]
  }

  /** What is kept around the content: a byte order mark that the line begins with, and the line ending it has. */
  lemma {:induction false} EdgesAre(raw: string)
    ensures Start(raw) == if raw != "" && raw[0] == '\U{FEFF}' then "\U{FEFF}" else ""
    ensures raw == "" || raw[|raw| - 1] != '\n' ==> Ending(raw) == ""
    ensures |raw| > 1 && raw[|raw| - 2] == '\r' && raw[|raw| - 1] == '\n' ==> Ending(raw) == "\r\n"
    ensures raw != "" && raw[|raw| - 1] == '\n' && (|raw| == 1 || raw[|raw| - 2] != '\r') ==> Ending(raw) == "\n"
  {
    var body := raw[..|raw| - |Ending(raw)|];
    if body != "" {
      assert BOM <= body <==> body[0] == BOM[0];
    } else {
      assert !(BOM <= body);
    }
  }

  /** replaceRegionInLine; None stands for its errors. */
  method ReplaceRegionInLine(raw: string, region: string) returns (line: Option<string>)
    ensures line.Some? <==> Sanitize(region) != "" && |Split(Content(raw))| == 8
    ensures line.Some? ==> line.value == Start(raw) + Join(Split(Content(raw))[0 := Sanitize(region)]) + Ending(raw)
  {
    var field := Sanitize(region);
    SanitizeIsClean(region);
    if field == "" || Contains(field) || '\r' in field || '\n' in field { return None; }
    var ending, content := "", raw;
    if content != "" && content[|content| - 1] == '\n' {
      ending := "\n";
      content := content[..|content| - 1];
      if content != "" && content[|content| - 1] == '\r' {
        ending := "\r\n";
        content := content[..|content| - 1];
      }
    }
    assert content == raw[..|raw| - |ending|] && ending == Ending(raw);
    var prefix := "";
    if BOM <= content {
      prefix := BOM;
      content := content[|BOM|..];
    }
    assert content == Content(raw);
    var parts := SplitFields(content);
    if |parts| != 8 { return None; }
    parts := parts[0 := field];
    return Some(prefix + Join(parts) + ending);
  }

  /** Replacing the region changes field one and nothing else, exactly when the new region does not end in a dash. */
  lemma {:induction false} RegionAloneChangesIff(content: string, region: string)
    requires |Split(content)| == 8
    ensures Split(Join(Split(content)[0 := Sanitize(region)])) == Split(content)[0 := Sanitize(region)] <==>
            !EndsInDash(Sanitize(region))
  {
    hide Split, Join, Sanitize, Contains;
    JoinSplit(content);
    SanitizeIsClean(region);
    var parts := Split(content);
    var changed := parts[0 := Sanitize(region)];
    SplitJoinIff(changed);
    assert forall i :: 1 <= i < 7 ==> Separable(changed[i]);
    assert Clean(changed) <==> Separable(changed[0]);
  }

  /** A line with eight fields. */
  const LISTED := ["US", "Y", "a@b.co", "p", "q(a)", "r(b)", "s(c)", "d"]

  /** A country code without a label is taken as it is, and so may end in a dash: then its dash is taken for the
      separator's, and the second field gets one. */
  lemma {:induction false} DashedRegionShifts()
    ensures Split(Join(LISTED)) == LISTED && Sanitize("X-") == "X-"
    ensures Split(Join(LISTED[0 := "X-"])) != LISTED[0 := "X-"]
  {
    hide Sanitize, Split, Join, Contains;
    ListedIsClean();
    SplitJoinIff(LISTED);
    PlainIsKept("X-");
    RegionAloneChangesIff(Join(LISTED), "X-");
  }

  lemma {:induction false} ListedIsClean()
    ensures Clean(LISTED)
  {
    hide Contains;
    forall i | 0 <= i < 8 ensures Separable(LISTED[i]) { PlainHasNoSeparator(LISTED[i]); }
  }
}
