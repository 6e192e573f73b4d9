/** Fields joined with "----": leftmost splitting, joining, and what sanitising a field achieves. */
module Fields {
  import opened Options
  import opened Text

  /** The library calls the parsers rely on: is this an address, and which date is this. */
  datatype Library = Library(isAddress: string -> bool, date: string -> Option<string>)

  const SEPARATOR := "----"

  predicate SeparatorAt(s: string, i: nat) {
    i + 4 <= |s| && s[i] == '-' && s[i + 1] == '-' && s[i + 2] == '-' && s[i + 3] == '-'
  }

  /** The first place of the separator, or the length of the string. */
  function Find(s: string): (n: nat)
    ensures n <= |s|
    ensures forall i :: 0 <= i < n ==> !SeparatorAt(s, i)
    ensures n < |s| ==> SeparatorAt(s, n)
  {
    if s == "" || SeparatorAt(s, 0) then 0
    else
      var n := Find(s[1..]);
      assert forall i :: 0 < i <= n ==> SeparatorAt(s, i) == SeparatorAt(s[1..], i - 1);
      n + 1
  }

  predicate Contains(s: string) { Find(s) < |s| }

  function Split(s: string): (parts: seq<string>)
    ensures parts != []
    decreases |s|
  {
    if Contains(s) then [s[..Find(s)]] + Split(s[Find(s) + 4..]) else [s]
  }

  function Join(fields: seq<string>): string
    requires fields != []
  {
    if |fields| == 1 then fields[0] else fields[0] + SEPARATOR + Join(fields[1..])
  }

  lemma {:induction false} ContainsFound(s: string)
    requires Contains(s)
    ensures SeparatorAt(s, Find(s)) && Find(s) + 4 <= |s|
  {}

  /** The loop inside strings.Split. */
  method SplitFields(s: string) returns (parts: seq<string>)
    ensures parts == Split(s)
  {
    parts := [];
    var rest := s;
    hide Contains;
    while Contains(rest)
      invariant parts + Split(rest) == Split(s)
      decreases |rest|
    {
      var n := Find(rest);
      ContainsFound(rest);
      assert Split(rest) == [rest[..n]] + Split(rest[n + 4..]);
      parts := parts + [rest[..n]];
      rest := rest[n + 4..];
    }
    parts := parts + [rest];
  }

  predicate EndsInDash(s: string) { s != "" && s[|s| - 1] == '-' }

  /** A field that can stand before a separator: it contains none and does not end in a dash. */
  predicate Separable(f: string) { !Contains(f) && !EndsInDash(f) }

  predicate Clean(fields: seq<string>) {
    && fields != [] && !Contains(fields[|fields| - 1])
    && forall i :: 0 <= i < |fields| - 1 ==> Separable(fields[i])
  }

  lemma {:induction false} FindFirst(f: string, rest: string)
    ensures var s := f + SEPARATOR + rest;
            Find(s) <= |f| && Contains(s) && s[..|f|] == f && s[|f| + 4..] == rest && (Find(s) == |f| <==> Separable(f))
  {
    var s := f + SEPARATOR + rest;
    assert SeparatorAt(s, |f|);
    var n := Find(s);
    forall i | 0 <= i < |f| ensures SeparatorAt(f, i) ==> SeparatorAt(s, i) {}
    if f != "" && f[|f| - 1] == '-' { assert SeparatorAt(s, |f| - 1); }
    if n < |f| {
      if n + 4 <= |f| {
        assert SeparatorAt(f, n);
      } else {
        assert s[|f| - 1] == '-';
      }
    }
  }

  /** Splitting and joining again changes nothing, and every part but the last could stand before a separator. */
  lemma {:induction false} JoinSplit(s: string)
    ensures Join(Split(s)) == s && Clean(Split(s))
    decreases |s|
  {
    hide Clean, Separable;
    if Contains(s) {
      var f, rest := s[..Find(s)], s[Find(s) + 4..];
      assert s == f + SEPARATOR + rest;
      FindFirst(f, rest);
      JoinSplit(rest);
      assert Split(s)[1..] == Split(rest) && Split(s)[0] == f;
      CleanTail(Split(s));
    } else {
      OneIsClean(s);
    }
  }

  lemma {:induction false} OneIsClean(s: string)
    requires !Contains(s)
    ensures Clean([s])
  {}

  lemma {:induction false} CleanTail(fields: seq<string>)
    requires |fields| > 1
    ensures Clean(fields) <==> Separable(fields[0]) && Clean(fields[1..])
  {
    var rest := fields[1..];
    assert rest[|rest| - 1] == fields[|fields| - 1];
    assert forall i :: 0 <= i < |rest| ==> rest[i] == fields[i + 1];
    assert forall i :: 0 < i < |fields| ==> fields[i] == rest[i - 1];
  }

  /** Joining and splitting again gives the fields back exactly when no field contains a separator and only the
      last may end in a dash. */
  lemma {:induction false} SplitJoinIff(fields: seq<string>)
    requires fields != []
    ensures Split(Join(fields)) == fields <==> Clean(fields)
    decreases |fields|
  {
    if |fields| == 1 {
      JoinSplit(fields[0]);
    } else {
      var f, rest := fields[0], fields[1..];
      var s := f + SEPARATOR + Join(rest);
      assert Join(fields) == s;
      FindFirst(f, Join(rest));
      SplitJoinIff(rest);
      CleanTail(fields);
      if Find(s) == |f| {
        assert Split(s) == [f] + Split(Join(rest));
        assert fields == [f] + rest;
      } else {
        assert Split(s)[0] == s[..Find(s)];
      }
    }
  }

  lemma {:induction false} PartsAreUncut(s: string, k: nat)
    requires k < |Split(s)|
    ensures !Contains(Split(s)[k])
  {
    hide Split, Join, Contains;
    JoinSplit(s);
  }

  /** No part of a split line contains a separator, nor does what an address is made of it. */
  lemma {:induction false} AddressIsUncut(s: string, k: nat)
    requires k < |Split(s)|
    ensures !Contains(Lower(Trim(Split(s)[k])))
  {
    hide Split, Trim, Lower, Contains;
    var part := Split(s)[k];
    PartsAreUncut(s, k);
    TrimIsPart(part);
    var i, j :| 0 <= i <= j <= |part| && Trim(part) == part[i..j];
    PartIsClean(part, i, j);
    LowerKeepsSeparators(Trim(part));
  }

  lemma {:induction false} LowerKeepsSeparators(s: string)
    ensures Contains(Lower(s)) ==> Contains(s)
  {
    if Contains(Lower(s)) { assert SeparatorAt(s, Find(Lower(s))); }
  }

  /** Any suffix of a split line, joined and split again, is that suffix. */
  lemma {:induction false} SuffixIsStable(s: string, k: nat)
    requires k < |Split(s)|
    ensures Split(Join(Split(s)[k..])) == Split(s)[k..]
  {
    hide Split, Join, Contains, Separable;
    JoinSplit(s);
    var parts := Split(s);
    var tail := parts[k..];
    assert tail[|tail| - 1] == parts[|parts| - 1];
    assert forall i :: 0 <= i < |tail| ==> tail[i] == parts[k + i];
    SplitJoinIff(tail);
  }

  // ---------------------------------------------------------------- sanitising

  function Spaced(s: string): (t: string)
    ensures |t| == |s|
    ensures forall i :: 0 <= i < |s| ==> t[i] == if s[i] == '\r' || s[i] == '\n' then ' ' else s[i]
  {
    seq(|s|, i requires 0 <= i < |s| => if s[i] == '\r' || s[i] == '\n' then ' ' else s[i])
  }

  /** strings.ReplaceAll(s, "----", " - ") replaces from the left. */
  function Replaced(s: string): string
    decreases |s|
  {
    if Contains(s) then s[..Find(s)] + " - " + Replaced(s[Find(s) + 4..]) else s
  }

  function Sanitize(value: string): string { Trim(Replaced(Spaced(value))) }

  /** The fields with a dash between blanks between them. */
  function Spread(fields: seq<string>): string
    requires fields != []
  {
    if |fields| == 1 then fields[0] else fields[0] + " - " + Spread(fields[1..])
  }

  /** Each separator is replaced by a dash between blanks, and nothing else changes. */
  lemma {:induction false} ReplacedIs(s: string)
    ensures Replaced(s) == Spread(Split(s))
    decreases |s|
  {
    if Contains(s) {
      ReplacedIs(s[Find(s) + 4..]);
      assert Split(s)[1..] == Split(s[Find(s) + 4..]);
    }
  }

  predicate OneLine(s: string) { '\r' !in s && '\n' !in s }

  lemma {:induction false} GapSeparates(f: string, rest: string)
    requires !Contains(f) && !Contains(rest)
    ensures !Contains(f + " - " + rest)
  {
    var s := f + " - " + rest;
    forall i | 0 <= i < |s| ensures !SeparatorAt(s, i) {
      if i + 4 <= |f| {
        assert SeparatorAt(s, i) == SeparatorAt(f, i);
      } else if i >= |f| + 3 {
        assert SeparatorAt(s, i) == SeparatorAt(rest, i - |f| - 3);
      } else if i <= |f| {
        assert s[|f|] == ' ';
      } else {
        assert s[|f| + 2] == ' ';
      }
    }
  }

  lemma {:induction false} ReplacedIsClean(s: string)
    ensures !Contains(Replaced(s)) && (OneLine(s) ==> OneLine(Replaced(s)))
    decreases |s|
  {
    if Contains(s) {
      var f, rest := s[..Find(s)], s[Find(s) + 4..];
      ReplacedIsClean(rest);
      assert forall i :: 0 <= i < |f| && SeparatorAt(f, i) ==> SeparatorAt(s, i);
      GapSeparates(f, Replaced(rest));
    }
  }

  lemma {:induction false} TrimIsPart(s: string)
    ensures exists i, j :: 0 <= i <= j <= |s| && Trim(s) == s[i..j]
  {
    hide Trim;
    TrimTakesSpace(s);
  }

  lemma {:induction false} PartIsClean(s: string, i: nat, j: nat)
    requires i <= j <= |s|
    ensures !Contains(s) ==> !Contains(s[i..j])
    ensures OneLine(s) ==> OneLine(s[i..j])
  {
    var t := s[i..j];
    if Contains(t) { assert SeparatorAt(s, i + Find(t)); }
    assert forall c :: c in t ==> c in s;
  }

  /** A sanitised field has no separator and no line break and is trimmed; sanitising it again changes nothing. */
  lemma {:induction false} SanitizeIsClean(value: string)
    ensures var t := Sanitize(value); !Contains(t) && OneLine(t) && Trim(t) == t && Sanitize(t) == t
  {
    hide Replaced, Trim;
    var s := Spaced(value);
    ReplacedIsClean(s);
    TrimIsPart(Replaced(s));
    var i, j :| 0 <= i <= j <= |Replaced(s)| && Trim(Replaced(s)) == Replaced(s)[i..j];
    PartIsClean(Replaced(s), i, j);
    var t := Sanitize(value);
    assert Spaced(t) == t;
    NothingToReplace(t);
    TrimTwice(Replaced(s));
  }

  lemma {:induction false} NothingToReplace(t: string)
    requires !Contains(t)
    ensures Replaced(t) == t
  {}

  lemma {:induction false} TrimTwice(s: string)
    ensures Trim(Trim(s)) == Trim(s)
  {}
}
