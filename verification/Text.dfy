/** String helpers that stand for the Go standard library calls the modelled code makes. */
module Text {

  /** The code points that Go's strings.TrimSpace removes. */
  predicate IsSpace(c: char) {
    var n := c as int;
    || 9 <= n <= 13 || n == 32 || n == 0x85 || n == 0xA0 || n == 0x1680
    || 0x2000 <= n <= 0x200a || n == 0x2028 || n == 0x2029 || n == 0x202f || n == 0x205f || n == 0x3000
  }

  function TrimLeft(s: string): (t: string)
    ensures |t| <= |s|
    ensures t != "" ==> !IsSpace(t[0])
    ensures s != "" && !IsSpace(s[0]) ==> t == s
  {
    if s == "" then s else if IsSpace(s[0]) then TrimLeft(s[1..]) else s
  }

  function TrimRight(s: string): (t: string)
    ensures t <= s
    ensures t != "" ==> !IsSpace(t[|t| - 1])
    ensures s != "" && !IsSpace(s[0]) ==> t != "" && t[0] == s[0]
    ensures s != "" && !IsSpace(s[|s| - 1]) ==> t == s
  {
    if s == "" then s else if IsSpace(s[|s| - 1]) then TrimRight(s[..|s| - 1]) else s
  }

  function Trim(s: string): (t: string)
    ensures t != "" ==> !IsSpace(t[0]) && !IsSpace(t[|t| - 1])
    ensures s != "" && !IsSpace(s[0]) ==> t != ""
    ensures s != "" && !IsSpace(s[0]) && !IsSpace(s[|s| - 1]) ==> t == s
  {
    TrimRight(TrimLeft(s))
  }

  /** What is trimmed off is white space, and nothing else is changed. */
  lemma {:induction false} TrimTakesSpace(s: string)
    ensures exists i, j ::
              && 0 <= i <= j <= |s| && Trim(s) == s[i..j]
              && forall n :: 0 <= n < |s| && !(i <= n < j) ==> IsSpace(s[n])
  {
    LeftTakesSpace(s);
    var l := TrimLeft(s);
    var i := |s| - |l|;
    RightTakesSpace(l);
    var j := i + |Trim(s)|;
    assert Trim(s) == l[..|Trim(s)|] == s[i..j];
    forall n | 0 <= n < |s| && !(i <= n < j) ensures IsSpace(s[n]) {
      if n >= i { assert s[n] == l[n - i]; }
    }
  }

  lemma {:induction false} LeftTakesSpace(s: string)
    ensures TrimLeft(s) == s[|s| - |TrimLeft(s)|..]
    ensures forall n :: 0 <= n < |s| - |TrimLeft(s)| ==> IsSpace(s[n])
  {
    if s != "" && IsSpace(s[0]) {
      LeftTakesSpace(s[1..]);
      assert forall n :: 0 < n < |s| ==> s[n] == s[1..][n - 1];
    }
  }

  lemma {:induction false} RightTakesSpace(s: string)
    ensures forall n :: |TrimRight(s)| <= n < |s| ==> IsSpace(s[n])
  {
    if s != "" && IsSpace(s[|s| - 1]) { RightTakesSpace(s[..|s| - 1]); }
  }

  /** A blank string is one of white space only. */
  lemma {:induction false} BlankIff(s: string)
    ensures Blank(s) <==> forall c :: c in s ==> IsSpace(c)
  {
    TrimTakesSpace(s);
    var i, j :| 0 <= i <= j <= |s| && Trim(s) == s[i..j]
                && forall n :: 0 <= n < |s| && !(i <= n < j) ==> IsSpace(s[n]);
    if Trim(s) != "" { assert s[i] in s && s[i] == Trim(s)[0]; }
  }

  /** White space is no printable ASCII character but includes what a line or a cell may end in. */
  lemma {:induction false} SpacesAre(c: char)
    ensures '!' <= c <= '~' ==> !IsSpace(c)
    ensures c == ' ' || c == '\t' || c == '\n' || c == '\r' ==> IsSpace(c)
  {}

  lemma {:induction false} TrimNothing()
    ensures Trim("") == ""
  {}

  predicate Blank(s: string) { Trim(s) == "" }

  /** ASCII lower case, which is all that an address accepted by the programs can contain. */
  function Lower(s: string): (t: string)
    ensures |t| == |s|
  {
    seq(|s|, i requires 0 <= i < |s| => if 'A' <= s[i] <= 'Z' then (s[i] as int + 32) as char else s[i])
  }

  /** The same letter, or two letters that differ in case. */
  predicate SameLetter(c: char, d: char) {
    || c == d
    || ('A' <= c <= 'Z' && d as int == c as int + 32)
    || ('A' <= d <= 'Z' && c as int == d as int + 32)
  }

  lemma {:induction false} LowerIs(s: string)
    ensures forall i :: 0 <= i < |s| ==> SameLetter(s[i], Lower(s)[i]) && !('A' <= Lower(s)[i] <= 'Z')
  {}

  /** Two strings have the same lower case exactly when they agree letter by letter up to case. */
  lemma {:induction false} SameLowerIff(a: string, b: string)
    ensures Lower(a) == Lower(b) <==> |a| == |b| && forall i :: 0 <= i < |a| ==> SameLetter(a[i], b[i])
  {
    if |a| == |b| {
      forall i | 0 <= i < |a| ensures Lower(a)[i] == Lower(b)[i] <==> SameLetter(a[i], b[i]) {}
    }
  }

  function Decimal(n: nat): (t: string)
    ensures t != ""
  {
    var digit := [(('0' as int) + n % 10) as char];
    if n < 10 then digit else Decimal(n / 10) + digit
  }

  /** Different numbers are written differently. */
  lemma {:induction false} DecimalIsInjective(m: nat, n: nat)
    requires Decimal(m) == Decimal(n)
    ensures m == n
    decreases m
  {
    DecimalEnds(m);
    DecimalEnds(n);
    var d := Decimal(m);
    assert d[|d| - 1] as int == '0' as int + m % 10 == '0' as int + n % 10;
    if m >= 10 && n >= 10 {
      assert Decimal(m / 10) == d[..|d| - 1] == Decimal(n / 10);
      DecimalIsInjective(m / 10, n / 10);
    }
  }

  lemma {:induction false} DecimalEnds(n: nat)
    ensures var d := Decimal(n);
            && d[|d| - 1] as int == '0' as int + n % 10
            && if n < 10 then |d| == 1 else |d| > 1 && d[..|d| - 1] == Decimal(n / 10)
  {}

  lemma {:induction false} DecimalStarts(n: nat)
    requires n > 0
    ensures Decimal(n)[0] != '0'
    decreases n
  {
    if n >= 10 { DecimalStarts(n / 10); }
  }
}
