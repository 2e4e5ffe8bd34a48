/** The part of Go's `strings` package that the backend relies on.
    A Go string is a sequence of bytes; here one `char` stands for one byte, and only
    ASCII white space is white space. */
module Strings {

  // The bytes that Go's strings.TrimSpace and strings.Fields treat as space below 0x80.
  const SPACES: set<char> := {' ', '\t', '\n', '\U{000B}', '\U{000C}', '\r'}

  predicate IsSpace(c: char) {
    c in SPACES
  }

  /** White space is the blank, and the five bytes from the tab to the carriage return. */
  lemma SpacesInFull(c: char)
    ensures IsSpace(c) <==> c == ' ' || 9 <= c as int <= 13
  {
  }

  /** The non-space bytes of a text, in order: what may not get lost when a text is cut up. */
  function Ink(s: string): string {
    if s == "" then "" else (if IsSpace(s[0]) then "" else [s[0]]) + Ink(s[1..])
  }

  function InkAll(ps: seq<string>): string {
    if ps == [] then "" else Ink(ps[0]) + InkAll(ps[1..])
  }

  lemma {:induction false} InkConcat(a: string, b: string)
    ensures Ink(a + b) == Ink(a) + Ink(b)
  {
    if a == "" {
      assert a + b == b;
    } else {
      assert (a + b)[1..] == a[1..] + b;
      InkConcat(a[1..], b);
    }
  }

  lemma {:induction false} InkAllConcat(a: seq<string>, b: seq<string>)
    ensures InkAll(a + b) == InkAll(a) + InkAll(b)
  {
    if a == [] {
      assert a + b == b;
    } else {
      assert (a + b)[1..] == a[1..] + b;
      InkAllConcat(a[1..], b);
    }
  }

  lemma InkAllSnoc(ps: seq<string>, p: string)
    ensures InkAll(ps + [p]) == InkAll(ps) + Ink(p)
  {
    InkAllConcat(ps, [p]);
    assert InkAll([p]) == Ink(p);
  }

  lemma InkOne(p: string)
    ensures InkAll([p]) == Ink(p)
  {
  }

  lemma InkAllCons(p: string, ps: seq<string>)
    ensures InkAll([p] + ps) == Ink(p) + InkAll(ps)
  {
    assert ([p] + ps)[1..] == ps;
  }

  lemma InkAllLast(ps: seq<string>)
    requires ps != []
    ensures InkAll(ps) == InkAll(ps[..|ps| - 1]) + Ink(ps[|ps| - 1])
  {
    InkAllSnoc(ps[..|ps| - 1], ps[|ps| - 1]);
    assert ps[..|ps| - 1] + [ps[|ps| - 1]] == ps;
  }

  lemma InkTail(a: string, blank: string)
    requires Ink(blank) == ""
    ensures Ink(a + blank) == Ink(a)
  {
    InkConcat(a, blank);
    assert Ink(a) + "" == Ink(a);
  }

  lemma Assoc(a: string, b: string, c: string)
    ensures a + b + c == a + (b + c)
  {
  }

  lemma InkOfNothing()
    ensures Ink("") == "" && InkAll([]) == ""
  {
  }

  lemma InkOfSpace()
    ensures Ink(" ") == ""
  {
  }

  lemma InkGap(a: string, b: string)
    ensures Ink(a + " " + b) == Ink(a) + Ink(b)
  {
    InkOfSpace();
    InkConcat(a + " ", b);
    InkTail(a, " ");
  }

  // ----- trimming

  function TrimLeft(s: string, cut: set<char>): string {
    if s != "" && s[0] in cut then TrimLeft(s[1..], cut) else s
  }

  function TrimRight(s: string, cut: set<char>): string {
    if s != "" && s[|s| - 1] in cut then TrimRight(s[..|s| - 1], cut) else s
  }

  function TrimSpace(s: string): string {
    TrimLeft(TrimRight(s, SPACES), SPACES)
  }

  predicate Trimmed(s: string) {
    s != "" ==> !IsSpace(s[0]) && !IsSpace(s[|s| - 1])
  }

  lemma TrimmedIsKept(s: string)
    requires Trimmed(s)
    ensures TrimSpace(s) == s
  {
  }

  lemma {:induction false} TrimLeftInk(s: string, cut: set<char>)
    requires cut <= SPACES
    ensures Ink(TrimLeft(s, cut)) == Ink(s)
    ensures |TrimLeft(s, cut)| <= |s| && TrimLeft(s, cut) == s[|s| - |TrimLeft(s, cut)|..]
    ensures TrimLeft(s, cut) != "" ==> TrimLeft(s, cut)[0] !in cut
  {
    if s != "" && s[0] in cut {
      TrimLeftInk(s[1..], cut);
      assert Ink(s) == "" + Ink(s[1..]);
    }
  }

  lemma {:induction false} TrimRightInk(s: string, cut: set<char>)
    requires cut <= SPACES
    ensures Ink(TrimRight(s, cut)) == Ink(s)
    ensures TrimRight(s, cut) <= s
    ensures TrimRight(s, cut) != "" ==> TrimRight(s, cut)[|TrimRight(s, cut)| - 1] !in cut
  {
    if s != "" && s[|s| - 1] in cut {
      var n := |s| - 1;
      TrimRightInk(s[..n], cut);
      InkTail(s[..n], [s[n]]);
      assert s[..n] + [s[n]] == s;
    }
  }

  /** TrimSpace keeps the ink, leaves no space at either end and is empty on blank text only. */
  lemma TrimSpaceKeepsInk(s: string)
    ensures Ink(TrimSpace(s)) == Ink(s)
    ensures Trimmed(TrimSpace(s))
    ensures |TrimSpace(s)| <= |s|
    ensures TrimSpace(s) == "" <==> Ink(s) == ""
  {
    var r := TrimRight(s, SPACES);
    TrimRightInk(s, SPACES);
    TrimLeftInk(r, SPACES);
    hide TrimLeft, TrimRight;
    if TrimSpace(s) != "" {
      assert TrimSpace(s)[|TrimSpace(s)| - 1] == r[|r| - 1];
    }
  }

  lemma {:induction false} TrimRightEnd(s: string) returns (b: nat)
    ensures b <= |s| && TrimRight(s, SPACES) == s[..b]
    ensures forall i :: b <= i < |s| ==> IsSpace(s[i])
  {
    b := |s|;
    if s != "" && s[|s| - 1] in SPACES {
      b := TrimRightEnd(s[..|s| - 1]);
    }
  }

  /** Trimming cuts white space from both ends, and nothing else. */
  lemma TrimSpaceIsInner(s: string) returns (a: nat, b: nat)
    ensures a <= b <= |s| && TrimSpace(s) == s[a..b]
    ensures forall i :: 0 <= i < a || b <= i < |s| ==> IsSpace(s[i])
  {
    b := TrimRightEnd(s);
    a := TrimLeftStart(s[..b]);
  }

  lemma {:induction false} TrimLeftStart(s: string) returns (a: nat)
    ensures a <= |s| && TrimLeft(s, SPACES) == s[a..]
    ensures forall i :: 0 <= i < a ==> IsSpace(s[i])
  {
    a := 0;
    if s != "" && s[0] in SPACES {
      var a' := TrimLeftStart(s[1..]);
      a := a' + 1;
      assert forall i :: 1 <= i < a ==> s[i] == s[1..][i - 1];
    }
  }

  lemma {:induction false} TrimLeftBlankPrefix(a: string, b: string)
    requires Ink(a) == ""
    ensures TrimLeft(a + b, SPACES) == TrimLeft(b, SPACES)
  {
    if a == "" {
      assert a + b == b;
    } else {
      assert (a + b)[1..] == a[1..] + b;
      TrimLeftBlankPrefix(a[1..], b);
    }
  }

  lemma {:induction false} TrimRightBlankSuffix(a: string, b: string)
    requires Ink(b) == ""
    ensures TrimRight(a + b, SPACES) == TrimRight(a, SPACES)
  {
    if b == "" {
      assert a + b == a;
    } else {
      var n := |b| - 1;
      InkConcat(b[..n], [b[n]]);
      assert b[..n] + [b[n]] == b;
      assert (a + b)[..|a + b| - 1] == a + b[..n];
      TrimRightBlankSuffix(a, b[..n]);
    }
  }

  /** Blank text at the ends never counts towards the trimmed text. */
  lemma TrimSpaceOfBlankSuffix(a: string, b: string)
    requires Ink(b) == ""
    ensures TrimSpace(a + b) == TrimSpace(a)
  {
    TrimRightBlankSuffix(a, b);
  }

  lemma TrimSpaceOfBlankPrefix(a: string, b: string)
    requires Ink(a) == ""
    ensures TrimSpace(a + b) == TrimSpace(b)
  {
    if Ink(b) == "" {
      InkConcat(a, b);
      TrimSpaceKeepsInk(a + b);
      TrimSpaceKeepsInk(b);
    } else {
      TrimRightKeepsPrefix(a, b);
      TrimLeftBlankPrefix(a, TrimRight(b, SPACES));
    }
  }

  lemma {:induction false} TrimRightKeepsPrefix(a: string, b: string)
    requires Ink(b) != ""
    ensures TrimRight(a + b, SPACES) == a + TrimRight(b, SPACES)
  {
    var n := |b| - 1;
    if b[n] in SPACES {
      assert Ink(b[..n]) != "" by {
        InkTail(b[..n], [b[n]]);
        assert b[..n] + [b[n]] == b;
      }
      assert (a + b)[..|a + b| - 1] == a + b[..n];
      hide Ink;
      TrimRightKeepsPrefix(a, b[..n]);
    }
  }

  // ----- splitting and joining

  /** The first index of sep in s, or -1. */
  function Index(s: string, sep: string): (k: int)
    requires sep != ""
    ensures -1 <= k
    ensures k >= 0 ==> k + |sep| <= |s| && s[k..k + |sep|] == sep
  {
    if |s| < |sep| then -1
    else if sep <= s then 0
    else
      var k := Index(s[1..], sep);
      assert k >= 0 ==> s[1..][k..k + |sep|] == s[k + 1..k + 1 + |sep|];
      if k < 0 then -1 else k + 1
  }

  function Split(s: string, sep: string): (ps: seq<string>)
    requires sep != ""
    ensures ps != []
    decreases |s|
  {
    var k := Index(s, sep);
    if k < 0 then [s] else [s[..k]] + Split(s[k + |sep|..], sep)
  }

  function Join(ps: seq<string>, sep: string): string {
    if ps == [] then "" else if |ps| == 1 then ps[0] else ps[0] + sep + Join(ps[1..], sep)
  }

  lemma JoinOne(p: string, sep: string)
    ensures Join([p], sep) == p
  {
  }

  lemma JoinCons(p: string, ps: seq<string>, sep: string)
    requires ps != []
    ensures Join([p] + ps, sep) == p + sep + Join(ps, sep)
  {
    assert ([p] + ps)[1..] == ps;
  }

  function ReplaceAll(s: string, was: string, becomes: string): string
    requires was != ""
  {
    Join(Split(s, was), becomes)
  }

  lemma {:induction false} JoinSplit(s: string, sep: string)
    requires sep != ""
    ensures Join(Split(s, sep), sep) == s
    decreases |s|
  {
    hide Index, Join;
    var k := Index(s, sep);
    if k >= 0 {
      var rest := s[k + |sep|..];
      JoinSplit(rest, sep);
      JoinCons(s[..k], Split(rest, sep), sep);
      assert s == s[..k] + sep + rest;
    } else {
      JoinOne(s, sep);
    }
  }

  lemma {:induction false} InkJoin(ps: seq<string>, sep: string)
    requires Ink(sep) == ""
    ensures Ink(Join(ps, sep)) == InkAll(ps)
  {
    hide Ink;
    InkOfNothing();
    if |ps| == 1 {
      assert ps == [ps[0]];
      InkOne(ps[0]);
    } else if |ps| > 1 {
      InkJoin(ps[1..], sep);
      InkConcat(ps[0] + sep, Join(ps[1..], sep));
      InkTail(ps[0], sep);
    }
  }

  /** Cutting at white space loses no ink. */
  lemma InkSplit(s: string, sep: string)
    requires sep != "" && Ink(sep) == ""
    ensures InkAll(Split(s, sep)) == Ink(s)
  {
    JoinSplit(s, sep);
    InkJoin(Split(s, sep), sep);
  }

  lemma InkReplaceAll(s: string, was: string, becomes: string)
    requires was != "" && Ink(was) == "" && Ink(becomes) == ""
    ensures Ink(ReplaceAll(s, was, becomes)) == Ink(s)
  {
    InkSplit(s, was);
    InkJoin(Split(s, was), becomes);
  }

  /** Splitting undoes joining when no piece contains the first byte of the separator. */
  lemma {:induction false} SplitJoin(ps: seq<string>, sep: string)
    requires ps != [] && sep != ""
    requires forall p :: p in ps ==> sep[0] !in p
    ensures Split(Join(ps, sep), sep) == ps
  {
    hide Join, Split, Index;
    if |ps| == 1 {
      assert ps == [ps[0]];
      JoinOne(ps[0], sep);
      SplitWithout(ps[0], sep);
    } else {
      JoinCons(ps[0], ps[1..], sep);
      assert [ps[0]] + ps[1..] == ps;
      SplitAfter(ps[0], sep, Join(ps[1..], sep));
      SplitJoin(ps[1..], sep);
    }
  }

  lemma SplitAfter(a: string, sep: string, rest: string)
    requires sep != "" && sep[0] !in a
    ensures Split(a + sep + rest, sep) == [a] + Split(rest, sep)
  {
    hide Index;
    IndexAfter(a, sep, rest);
    var s := a + sep + rest;
    assert s[..|a|] == a && s[|a| + |sep|..] == rest;
  }

  lemma {:induction false} IndexAfter(a: string, sep: string, rest: string)
    requires sep != "" && sep[0] !in a
    ensures Index(a + sep + rest, sep) == |a|
  {
    if a == "" {
      assert a + sep + rest == sep + rest;
    } else {
      assert (a + sep + rest)[1..] == a[1..] + sep + rest;
      IndexAfter(a[1..], sep, rest);
    }
  }

  /** The separator is found behind a text that lacks its second byte. */
  lemma {:induction false} IndexBehind(a: string, sep: string, rest: string)
    requires |sep| >= 2 && sep[1] !in a && sep[0] != sep[1]
    ensures Index(a + sep + rest, sep) == |a|
  {
    if a == "" {
      assert a + sep + rest == sep + rest;
    } else {
      var s := a + sep + rest;
      assert s[1..] == a[1..] + sep + rest;
      IndexBehind(a[1..], sep, rest);
      assert s[1] == if |a| > 1 then a[1] else sep[0];
      assert s[1] != sep[1];
    }
  }

  lemma SplitBehind(a: string, sep: string, rest: string)
    requires |sep| >= 2 && sep[1] !in a && sep[0] != sep[1]
    ensures Split(a + sep + rest, sep) == [a] + Split(rest, sep)
  {
    hide Index;
    IndexBehind(a, sep, rest);
    var s := a + sep + rest;
    assert s[..|a|] == a && s[|a| + |sep|..] == rest;
  }

  lemma IndexFound(s: string, sep: string, i: nat)
    requires sep != "" && Index(s, sep) >= 0 && i < |sep|
    ensures sep[i] in s
  {
    var k := Index(s, sep);
    assert s[k..k + |sep|][i] == s[k + i];
  }

  lemma SplitWithout(s: string, sep: string)
    requires sep != "" && sep[0] !in s
    ensures Split(s, sep) == [s]
  {
  }

  lemma {:induction false} SplitAtByte(s: string, c: char)
    ensures forall k :: 0 <= k < |Split(s, [c])| ==> c !in Split(s, [c])[k]
    decreases |s|
  {
    IndexOfByte(s, c);
    var k := Index(s, [c]);
    if k >= 0 {
      SplitAtByte(s[k + 1..], c);
    }
  }

  lemma {:induction false} IndexOfByte(s: string, c: char)
    ensures var k := Index(s, [c]); c !in if k < 0 then s else s[..k]
  {
    if s != "" && s[0] != c {
      IndexOfByte(s[1..], c);
      var k := Index(s, [c]);
      assert k >= 0 ==> s[..k] == [s[0]] + s[1..][..k - 1];
    }
  }

  /** Splitting invents no bytes, and neither does joining. */
  lemma {:induction false} SplitLacks(s: string, sep: string, c: char)
    requires sep != "" && c !in s
    ensures forall k :: 0 <= k < |Split(s, sep)| ==> c !in Split(s, sep)[k]
    decreases |s|
  {
    var k := Index(s, sep);
    if k >= 0 {
      SplitLacks(s[k + |sep|..], sep, c);
    }
  }

  lemma {:induction false} JoinLacks(ps: seq<string>, sep: string, c: char)
    requires c !in sep && forall k :: 0 <= k < |ps| ==> c !in ps[k]
    ensures c !in Join(ps, sep)
  {
    if |ps| > 1 {
      JoinLacks(ps[1..], sep, c);
    }
  }

  /** The number of words strings.Fields finds: the places where a word begins. */
  function WordCount(s: string): nat {
    if s == "" then 0
    else
      var n := |s| - 1;
      WordCount(s[..n]) + if !IsSpace(s[n]) && (n == 0 || IsSpace(s[n - 1])) then 1 else 0
  }

  lemma WordCountSnoc(s: string, c: char)
    ensures WordCount(s + [c])
            == WordCount(s) + if !IsSpace(c) && (s == "" || IsSpace(s[|s| - 1])) then 1 else 0
  {
    assert (s + [c])[..|s|] == s;
  }

  /** A space separates the words before it from those after it. */
  lemma {:induction false} WordCountAtSpace(a: string, c: char, b: string)
    requires IsSpace(c)
    ensures WordCount(a + [c] + b) == WordCount(a) + WordCount(b)
  {
    if b == "" {
      assert a + [c] + b == a + [c];
      WordCountSnoc(a, c);
    } else {
      var n := |b| - 1;
      WordCountAtSpace(a, c, b[..n]);
      assert b[..n] + [b[n]] == b;
      assert a + [c] + b == a + [c] + b[..n] + [b[n]];
      WordCountSnoc(a + [c] + b[..n], b[n]);
      WordCountSnoc(b[..n], b[n]);
      assert (a + [c] + b[..n])[|a + [c] + b[..n]| - 1] == if n == 0 then c else b[n - 1];
    }
  }

  /** Without a space within, a text that is not empty is one word. */
  lemma {:induction false} WordCountOfWord(w: string)
    requires w != "" && forall i :: 0 <= i < |w| ==> !IsSpace(w[i])
    ensures WordCount(w) == 1
  {
    if |w| > 1 {
      WordCountOfWord(w[..|w| - 1]);
    }
  }

  // ----- letter case

  function Lower(c: char): char {
    if 'A' <= c <= 'Z' then (c as int + 32) as char else c
  }

  predicate EqualFold(s: string, t: string) {
    |s| == |t| && forall i :: 0 <= i < |s| ==> Lower(s[i]) == Lower(t[i])
  }

  function ToLower(s: string): string {
    seq(|s|, i requires 0 <= i < |s| => Lower(s[i]))
  }

  /** Two texts are the same but for letter case exactly if they are the same in lower case: each pair of
      letters is equal or lies as far apart as an upper-case letter and its own lower-case one. */
  lemma FoldedIffSameLower(s: string, t: string)
    ensures EqualFold(s, t) <==> ToLower(s) == ToLower(t)
    ensures EqualFold(s, t) <==> |s| == |t| && forall i :: 0 <= i < |s| ==>
              || s[i] == t[i]
              || ('A' <= s[i] <= 'Z' && t[i] as int == s[i] as int + 32)
              || ('A' <= t[i] <= 'Z' && s[i] as int == t[i] as int + 32)
  {
    assert EqualFold(s, t) ==> ToLower(s) == ToLower(t);
    if ToLower(s) == ToLower(t) {
      assert |s| == |ToLower(s)| == |t|;
      forall i | 0 <= i < |s|
        ensures Lower(s[i]) == Lower(t[i])
      {
        assert ToLower(s)[i] == Lower(s[i]) && ToLower(t)[i] == Lower(t[i]);
      }
    }
  }

  // ----- numbers

  function Digit(d: nat): char
    requires d < 10
  {
    '0' + d as char
  }

  function Digits(n: nat): string {
    if n < 10 then [Digit(n)] else Digits(n / 10) + [Digit(n % 10)]
  }

  /** What the format %d prints. */
  function Decimal(n: int): string {
    if n < 0 then "-" + Digits(-n) else Digits(n)
  }

  function ReadDigits(s: string): nat
    requires forall i :: 0 <= i < |s| ==> '0' <= s[i] <= '9'
  {
    if s == "" then 0 else 10 * ReadDigits(s[..|s| - 1]) + (s[|s| - 1] as int - '0' as int)
  }

  predicate AllDigits(s: string) {
    s != "" && forall i :: 0 <= i < |s| ==> '0' <= s[i] <= '9'
  }

  /** The number a decimal text stands for; -1 if it is not one. */
  function ReadNat(s: string): int {
    if AllDigits(s) then ReadDigits(s) else -1
  }

  lemma {:induction false} DigitsReadBack(n: nat)
    ensures AllDigits(Digits(n)) && ReadDigits(Digits(n)) == n
  {
    if n >= 10 {
      DigitsReadBack(n / 10);
      var s := Digits(n);
      assert s[..|s| - 1] == Digits(n / 10);
    } else {
      var s := Digits(n);
      assert s[..0] == "";
    }
  }

  function Pow10(k: nat): nat {
    if k == 0 then 1 else 10 * Pow10(k - 1)
  }

  lemma {:induction false} DigitsLength(n: nat, k: nat)
    requires k >= 1 && n < Pow10(k)
    ensures 1 <= |Digits(n)| <= k
  {
    if n >= 10 {
      DigitsLength(n / 10, k - 1);
    }
  }

  lemma IndexNone(s: string, sep: string)
    requires sep != "" && sep[0] !in s
    ensures Index(s, sep) == -1
  {
  }
}
