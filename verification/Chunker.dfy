/** The knowledge-base chunker: backend/internal/kb/chunker.go. */
module Chunker {
  import opened Strings

  datatype Chunk = Chunk(index: nat, content: string, tokens: nat)

  datatype ChunkOptions = ChunkOptions(maxChars: int, overlapChars: int)

  const DEFAULT_OPTIONS := ChunkOptions(2000, 200)

  // The blanks that are cut from the end of a line.
  const BLANKS: set<char> := {' ', '\t'}

  /** The options ChunkText really works with. */
  function Effective(opt: ChunkOptions): (r: ChunkOptions)
    ensures 0 <= r.overlapChars < r.maxChars
    ensures opt.maxChars <= 0 ==> r == ChunkOptions(2000, 200)
    ensures opt.maxChars > 0 ==> r.maxChars == opt.maxChars
    ensures 0 <= opt.overlapChars < opt.maxChars ==> r == opt
    ensures opt.maxChars > 0 && !(0 <= opt.overlapChars < opt.maxChars) ==> r.overlapChars == 0
  {
    var o := if opt.maxChars <= 0 then DEFAULT_OPTIONS else opt;
    if o.overlapChars < 0 || o.overlapChars >= o.maxChars then o.(overlapChars := 0) else o
  }

  function ApproxTokens(s: string): nat {
    WordCount(s) * 13 / 10
  }

  /** The estimate is 1.3 tokens a word, rounded down. */
  lemma TokensPerWord(s: string)
    ensures 10 * ApproxTokens(s) <= 13 * WordCount(s) < 10 * (ApproxTokens(s) + 1)
  {
  }

  // ----- lines

  function TrimLines(lines: seq<string>): seq<string> {
    seq(|lines|, i requires 0 <= i < |lines| => TrimRight(lines[i], BLANKS))
  }

  function UnixLines(s: string): seq<string> {
    Split(ReplaceAll(ReplaceAll(s, "\r\n", "\n"), "\r", "\n"), "\n")
  }

  function Normalized(s: string): string {
    Join(TrimLines(UnixLines(s)), "\n")
  }

  method Normalize(text: string) returns (r: string)
    ensures r == Normalized(text)
  {
    var s := ReplaceAll(text, "\r\n", "\n");
    s := ReplaceAll(s, "\r", "\n");
    var parts := Split(s, "\n");
    var lines := new string[|parts|](i requires 0 <= i < |parts| => parts[i]);
    for i := 0 to lines.Length
      invariant lines[..] == TrimLines(parts[..i]) + parts[i..]
    {
      lines[i] := TrimRight(lines[i], BLANKS);
    }
    assert lines[..] == TrimLines(parts) by {
      assert parts[..|parts|] == parts;
    }
    r := Join(lines[..], "\n");
  }

  lemma {:induction false} TrimLinesKeepsInk(lines: seq<string>)
    ensures InkAll(TrimLines(lines)) == InkAll(lines)
  {
    if lines != [] {
      TrimRightInk(lines[0], BLANKS);
      TrimLinesKeepsInk(lines[1..]);
      assert TrimLines(lines)[1..] == TrimLines(lines[1..]);
    }
  }

  lemma NormalizedKeepsInk(s: string)
    ensures Ink(Normalized(s)) == Ink(s)
  {
    var t := ReplaceAll(s, "\r\n", "\n");
    InkReplaceAll(s, "\r\n", "\n");
    InkReplaceAll(t, "\r", "\n");
    InkSplit(ReplaceAll(t, "\r", "\n"), "\n");
    TrimLinesKeepsInk(UnixLines(s));
    InkJoin(TrimLines(UnixLines(s)), "\n");
  }

  /** Normal text has no carriage return and no blank at the end of a line. */
  predicate IsNormal(s: string) {
    && '\r' !in s
    && forall k :: 0 <= k < |Split(s, "\n")| ==> TrimRight(Split(s, "\n")[k], BLANKS) == Split(s, "\n")[k]
  }

  lemma UnixLinesLack(s: string)
    ensures UnixLines(s) != []
    ensures forall k :: 0 <= k < |UnixLines(s)| ==> '\n' !in UnixLines(s)[k] && '\r' !in UnixLines(s)[k]
  {
    var t := ReplaceAll(s, "\r\n", "\n");
    var u := ReplaceAll(t, "\r", "\n");
    SplitAtByte(t, '\r');
    JoinLacks(Split(t, "\r"), "\n", '\r');
    SplitLacks(u, "\n", '\r');
    SplitAtByte(u, '\n');
  }

  lemma NormalizedIsNormal(s: string)
    ensures IsNormal(Normalized(s))
  {
    var lines := TrimLines(UnixLines(s));
    UnixLinesLack(s);
    forall k | 0 <= k < |lines|
      ensures '\n' !in lines[k] && '\r' !in lines[k] && TrimRight(lines[k], BLANKS) == lines[k]
    {
      TrimRightInk(UnixLines(s)[k], BLANKS);
    }
    JoinLacks(lines, "\n", '\r');
    SplitJoin(lines, "\n");
  }

  /** Normalizing leaves normal text alone, so doing it twice is doing it once. */
  lemma NormalIsKept(s: string)
    requires IsNormal(s)
    ensures Normalized(s) == s
  {
    SplitWithout(s, "\r\n");
    SplitWithout(s, "\r");
    assert UnixLines(s) == Split(s, "\n");
    assert TrimLines(UnixLines(s)) == UnixLines(s);
    JoinSplit(s, "\n");
  }

  /** What is cut from the end of a line is all its blanks and tabs. */
  lemma {:induction false} TrimRightIsExact(l: string)
    ensures var t := TrimRight(l, BLANKS);
      && t <= l
      && (forall i :: |t| <= i < |l| ==> l[i] in {' ', '\t'})
      && (t != "" ==> t[|t| - 1] !in {' ', '\t'})
  {
    if l != "" && l[|l| - 1] in BLANKS {
      TrimRightIsExact(l[..|l| - 1]);
    }
  }

  /** Lines that end in any of the three ways are told apart, trimmed at their ends, and end in one way. */
  lemma LinesAreUnified(lines: seq<string>, end: string)
    requires lines != [] && end in {"\n", "\r\n", "\r"}
    requires forall l :: l in lines ==> '\n' !in l && '\r' !in l
    ensures Normalized(Join(lines, end)) == Join(TrimLines(lines), "\n")
  {
    hide Join, Split, TrimLines;
    var text, unix := Join(lines, end), Join(lines, "\n");
    JoinLacks(lines, "\n", '\r');
    SplitJoin(lines, "\n");
    if end == "\n" {
      SplitWithout(text, "\r\n");
    } else if end == "\r\n" {
      SplitJoin(lines, "\r\n");
    } else {
      JoinLacks(lines, "\r", '\n');
      NoPair(text);
      SplitJoin(lines, "\r");
    }
    JoinOne(text, "\n");
    SplitWithout(unix, "\r");
    JoinOne(unix, "\n");
  }

  lemma NoPair(s: string)
    requires '\n' !in s
    ensures Split(s, "\r\n") == [s]
  {
    if Index(s, "\r\n") >= 0 {
      IndexFound(s, "\r\n", 1);
    }
  }

  lemma InkOfNewlines()
    ensures Ink("\n") == "" && Ink("\n\n") == ""
  {
  }

  // ----- paragraphs

  function TrimmedBlocks(raw: seq<string>): seq<string> {
    if raw == [] then []
    else
      var n := |raw| - 1;
      var p := TrimSpace(raw[n]);
      TrimmedBlocks(raw[..n]) + if p != "" then [p] else []
  }

  function Paragraphs(s: string): seq<string> {
    TrimmedBlocks(Split(s, "\n\n"))
  }

  method SplitParagraphs(s: string) returns (out: seq<string>)
    ensures out == Paragraphs(s)
  {
    var raw := Split(s, "\n\n");
    out := [];
    for i := 0 to |raw|
      invariant out == TrimmedBlocks(raw[..i])
    {
      assert raw[..i + 1][..i] == raw[..i];
      var p := TrimSpace(raw[i]);
      if p != "" {
        out := out + [p];
      }
    }
    assert raw[..|raw|] == raw;
  }

  lemma {:induction false} TrimmedBlocksKeepInk(raw: seq<string>)
    ensures InkAll(TrimmedBlocks(raw)) == InkAll(raw)
    ensures forall k :: 0 <= k < |TrimmedBlocks(raw)| ==>
              TrimmedBlocks(raw)[k] != "" && Trimmed(TrimmedBlocks(raw)[k])
  {
    hide TrimSpace, Ink, InkAll;
    InkOfNothing();
    if raw != [] {
      var n := |raw| - 1;
      TrimmedBlocksKeepInk(raw[..n]);
      TrimSpaceKeepsInk(raw[n]);
      InkAllLast(raw);
      InkAllSnoc(TrimmedBlocks(raw[..n]), TrimSpace(raw[n]));
      assert TrimmedBlocks(raw[..n]) + [] == TrimmedBlocks(raw[..n]);
    }
  }

  // ----- sentences

  predicate EndsSentence(s: string, j: nat) {
    j + 1 < |s| && s[j] in {'.', '!', '?'} && s[j + 1] == ' '
  }

  /** The first sentence end at or after a position, or |s|. */
  function SentenceEnd(s: string, from: nat): (j: nat)
    requires from <= |s|
    ensures from <= j <= |s|
    ensures j < |s| ==> EndsSentence(s, j)
    decreases |s| - from
  {
    if from == |s| || EndsSentence(s, from) then from else SentenceEnd(s, from + 1)
  }

  function SentencesFrom(s: string, start: nat): seq<string>
    requires start <= |s|
    decreases |s| - start
  {
    if start == |s| then []
    else
      var j := SentenceEnd(s, start);
      if j == |s| then [s[start..]] else [s[start..j + 1]] + SentencesFrom(s, j + 2)
  }

  method SplitSentences(s: string) returns (out: seq<string>)
    ensures out == SentencesFrom(s, 0)
  {
    hide SentencesFrom;
    out := [];
    var buf := "";
    var i := 0;
    ghost var start := 0;
    while i < |s|
      invariant 0 <= start <= i <= |s| && buf == s[start..i]
      invariant start < |s| ==> SentenceEnd(s, start) == SentenceEnd(s, i)
      invariant out + SentencesFrom(s, start) == SentencesFrom(s, 0)
    {
      buf := buf + [s[i]];
      assert buf == s[start..i + 1];
      if (s[i] == '.' || s[i] == '!' || s[i] == '?') && i + 1 < |s| && s[i + 1] == ' ' {
        FirstSentence(s, start, i);
        Assoc3(out, [buf], SentencesFrom(s, i + 2));
        out := out + [buf];
        buf := "";
        i := i + 1;
        start := i + 1;
      }
      i := i + 1;
    }
    LastSentence(s, start);
    if |buf| > 0 {
      assert buf == s[start..];
      out := out + [buf];
    } else {
      assert out + [] == out;
    }
  }

  lemma FirstSentence(s: string, start: nat, i: nat)
    requires start <= i && EndsSentence(s, i) && SentenceEnd(s, start) == SentenceEnd(s, i)
    ensures SentencesFrom(s, start) == [s[start..i + 1]] + SentencesFrom(s, i + 2)
  {
    assert SentenceEnd(s, i) == i;
  }

  lemma LastSentence(s: string, start: nat)
    requires start <= |s| && SentenceEnd(s, start) == |s|
    ensures SentencesFrom(s, start) == if start < |s| then [s[start..]] else []
  {
  }

  lemma Assoc3(a: seq<string>, b: seq<string>, c: seq<string>)
    ensures a + b + c == a + (b + c)
  {
  }

  lemma InkAcrossGap(head: string, tail: seq<string>, rest: string)
    requires InkAll(tail) == Ink(rest)
    ensures InkAll([head] + tail) == Ink(head + " " + rest)
  {
    InkAllCons(head, tail);
    InkGap(head, rest);
  }

  lemma CutAtSentence(s: string, start: nat, j: nat)
    requires start <= j && EndsSentence(s, j)
    ensures s[start..] == s[start..j + 1] + " " + s[j + 2..]
  {
  }

  lemma {:induction false} SentencesKeepInk(s: string, start: nat)
    requires start <= |s|
    ensures InkAll(SentencesFrom(s, start)) == Ink(s[start..])
    decreases |s| - start
  {
    hide SentenceEnd, Ink, InkAll;
    InkOfNothing();
    if start < |s| {
      var j := SentenceEnd(s, start);
      if j == |s| {
        InkOne(s[start..]);
      } else {
        SentencesKeepInk(s, j + 2);
        CutAtSentence(s, start, j);
        InkAcrossGap(s[start..j + 1], SentencesFrom(s, j + 2), s[j + 2..]);
      }
    } else {
      assert s[start..] == "";
    }
  }

  lemma SentencesHead(s: string, start: nat)
    requires start < |s|
    ensures var j := SentenceEnd(s, start);
      SentencesFrom(s, start) == if j == |s| then [s[start..]] else [s[start..j + 1]] + SentencesFrom(s, j + 2)
    ensures SentencesFrom(s, start) != []
  {
  }

  /** Putting the dropped spaces back gives the text again, unless it ends in a space. */
  lemma {:induction false} JoinSentences(s: string, start: nat)
    requires start < |s| && s[|s| - 1] != ' '
    ensures Join(SentencesFrom(s, start), " ") == s[start..]
    decreases |s| - start
  {
    hide SentenceEnd, Join, SentencesFrom;
    SentencesHead(s, start);
    var j := SentenceEnd(s, start);
    if j < |s| {
      SentencesHead(s, j + 2);
      JoinSentences(s, j + 2);
      CutAtSentence(s, start, j);
      JoinCons(s[start..j + 1], SentencesFrom(s, j + 2), " ");
    } else {
      JoinOne(s[start..], " ");
    }
  }

  /** A sentence ends with its terminator, unless it is the last one, and has no such end within: no
      terminator that a space follows. */
  predicate EndsOnce(t: string, last: bool) {
    && t != ""
    && (last || t[|t| - 1] in {'.', '!', '?'})
    && forall i :: 0 <= i < |t| - 1 ==> !(t[i] in {'.', '!', '?'} && t[i + 1] == ' ')
  }

  lemma FirstEndsOnce(s: string, start: nat)
    requires start < |s|
    ensures var j := SentenceEnd(s, start);
      if j < |s| then EndsOnce(s[start..j + 1], false) else EndsOnce(s[start..], true)
  {
    var j := SentenceEnd(s, start);
    NoEndBefore(s, start);
    hide SentenceEnd;
    var t := if j < |s| then s[start..j + 1] else s[start..];
    forall i | 0 <= i < |t| - 1
      ensures !(t[i] in {'.', '!', '?'} && t[i + 1] == ' ')
    {
      assert t[i] == s[start + i] && t[i + 1] == s[start + i + 1];
    }
  }

  lemma {:induction false} SentencesEndOnce(s: string, start: nat)
    requires start <= |s|
    ensures var ss := SentencesFrom(s, start);
      forall k :: 0 <= k < |ss| ==> EndsOnce(ss[k], k + 1 == |ss|)
    decreases |s| - start
  {
    if start < |s| {
      var j := SentenceEnd(s, start);
      FirstEndsOnce(s, start);
      LastByte(s, start);
      SentencesHead(s, start);
      hide SentenceEnd, SentencesFrom, EndsOnce;
      if j < |s| {
        SentencesEndOnce(s, j + 2);
        OneMoreEndsOnce(s[start..j + 1], SentencesFrom(s, j + 2));
      }
    }
  }

  lemma OneMoreEndsOnce(t: string, rest: seq<string>)
    requires EndsOnce(t, false) && EndsOnce(t, true)
    requires forall k :: 0 <= k < |rest| ==> EndsOnce(rest[k], k + 1 == |rest|)
    ensures forall k :: 0 <= k < |[t] + rest| ==> EndsOnce(([t] + rest)[k], k + 1 == |[t] + rest|)
  {
    hide EndsOnce;
  }

  lemma LastByte(s: string, start: nat)
    requires start < |s|
    ensures var j := SentenceEnd(s, start); j < |s| ==> EndsOnce(s[start..j + 1], true)
  {
    FirstEndsOnce(s, start);
  }

  lemma {:induction false} NoEndBefore(s: string, from: nat)
    requires from <= |s|
    ensures forall i :: from <= i < SentenceEnd(s, from) && i + 1 < |s| ==>
              !(s[i] in {'.', '!', '?'} && s[i + 1] == ' ')
    decreases |s| - from
  {
    if from < |s| && !EndsSentence(s, from) {
      NoEndBefore(s, from + 1);
    }
  }

  // ----- oversized paragraphs

  datatype Cutting = Cutting(out: seq<string>, buf: string)

  function FlushPiece(st: Cutting): Cutting {
    var s := TrimSpace(st.buf);
    Cutting(if s != "" then st.out + [s] else st.out, "")
  }

  /** The full-length cuts of a sentence, with what is left over as the buffer. */
  function HardSplit(s: string, max: nat): Cutting
    requires max > 0
  {
    if |s| <= max then Cutting([], s)
    else var rest := HardSplit(s[max..], max); Cutting([s[..max]] + rest.out, rest.buf)
  }

  function AddSentence(st: Cutting, s: string, max: nat): Cutting
    requires max > 0
  {
    if |s| > max then
      var cut := HardSplit(s, max);
      Cutting(FlushPiece(st).out + cut.out, if cut.buf != "" then cut.buf + " " else "")
    else
      var st' := if |st.buf| + |s| + 1 > max && |st.buf| > 0 then FlushPiece(st) else st;
      Cutting(st'.out, st'.buf + s + " ")
  }

  function AddSentences(ss: seq<string>, max: nat): Cutting
    requires max > 0
  {
    if ss == [] then Cutting([], "")
    else AddSentence(AddSentences(ss[..|ss| - 1], max), ss[|ss| - 1], max)
  }

  function OversizedPieces(p: string, max: nat): seq<string>
    requires max > 0
  {
    FlushPiece(AddSentences(SentencesFrom(p, 0), max)).out
  }

  method SplitOversized(p: string, max: nat) returns (out: seq<string>)
    requires max > 0
    ensures out == OversizedPieces(p, max)
  {
    hide TrimSpace, HardSplit, SentencesFrom;
    var sentences := SplitSentences(p);
    out := [];
    var buf := "";
    for i := 0 to |sentences|
      invariant Cutting(out, buf) == AddSentences(sentences[..i], max)
    {
      assert sentences[..i + 1][..i] == sentences[..i];
      var s := sentences[i];
      if |s| > max {
        out, buf := Flush(out, buf);
        out, s := CutHard(out, s, max);
        if s != "" {
          buf := s + " ";
        }
      } else {
        if |buf| + |s| + 1 > max && |buf| > 0 {
          out, buf := Flush(out, buf);
        }
        buf := buf + s + " ";
      }
    }
    assert sentences[..|sentences|] == sentences;
    out, buf := Flush(out, buf);
  }

  // The hard split of a sentence that is too long on its own.
  method CutHard(out0: seq<string>, s0: string, max: nat) returns (out: seq<string>, s: string)
    requires max > 0
    ensures out == out0 + HardSplit(s0, max).out && s == HardSplit(s0, max).buf
  {
    out, s := out0, s0;
    while |s| > max
      invariant out + HardSplit(s, max).out == out0 + HardSplit(s0, max).out
      invariant HardSplit(s, max).buf == HardSplit(s0, max).buf
    {
      out := out + [s[..max]];
      s := s[max..];
    }
  }

  // The flush closure of splitOversized.
  method Flush(out0: seq<string>, buf0: string) returns (out: seq<string>, buf: string)
    ensures Cutting(out, buf) == FlushPiece(Cutting(out0, buf0))
  {
    out := out0;
    var s := TrimSpace(buf0);
    if s != "" {
      out := out + [s];
    }
    buf := "";
  }

  /** What the pieces and the buffer hold together, and the size both respect. */
  ghost predicate PiecesInv(st: Cutting, max: nat, ink: string) {
    && InkAll(st.out) + Ink(st.buf) == ink
    && (forall p :: p in st.out ==> 0 < |p| <= max)
    && |TrimSpace(st.buf)| <= max
  }

  lemma FlushPieceKeeps(st: Cutting, max: nat, ink: string)
    requires PiecesInv(st, max, ink)
    ensures PiecesInv(FlushPiece(st), max, ink)
  {
    hide TrimSpace, Ink, InkAll;
    InkOfNothing();
    TrimSpaceKeepsInk(st.buf);
    TrimSpaceKeepsInk("");
    InkAllSnoc(st.out, TrimSpace(st.buf));
    assert InkAll(FlushPiece(st).out) + "" == InkAll(FlushPiece(st).out);
    assert InkAll(st.out) + "" == InkAll(st.out);
  }

  lemma {:induction false} HardSplitKeeps(s: string, max: nat)
    requires max > 0
    ensures var cut := HardSplit(s, max);
      && InkAll(cut.out) + Ink(cut.buf) == Ink(s)
      && (forall p :: p in cut.out ==> |p| == max)
      && |cut.buf| <= max
  {
    hide Ink, InkAll;
    InkOfNothing();
    if |s| > max {
      var rest := HardSplit(s[max..], max);
      HardSplitKeeps(s[max..], max);
      InkAllCons(s[..max], rest.out);
      Assoc(Ink(s[..max]), InkAll(rest.out), Ink(rest.buf));
      InkConcat(s[..max], s[max..]);
      assert s[..max] + s[max..] == s;
    } else {
      assert "" + Ink(s) == Ink(s);
    }
  }

  lemma AddLongSentenceKeeps(st: Cutting, s: string, max: nat, ink: string)
    requires max > 0 && PiecesInv(st, max, ink) && st.buf == ""
    ensures var cut := HardSplit(s, max);
      PiecesInv(Cutting(st.out + cut.out, if cut.buf != "" then cut.buf + " " else ""), max, ink + Ink(s))
  {
    hide TrimSpace, Ink, InkAll, HardSplit;
    InkOfNothing();
    InkOfSpace();
    var cut := HardSplit(s, max);
    HardSplitKeeps(s, max);
    InkAllConcat(st.out, cut.out);
    assert ink == InkAll(st.out) + "" == InkAll(st.out);
    Assoc(ink, InkAll(cut.out), Ink(cut.buf));
    InkTail(cut.buf, " ");
    TrimSpaceOfBlankSuffix(cut.buf, " ");
    TrimSpaceKeepsInk(cut.buf);
    TrimSpaceKeepsInk("");
  }

  lemma AddShortSentenceKeeps(st: Cutting, s: string, max: nat, ink: string)
    requires max > 0 && PiecesInv(st, max, ink)
    requires |st.buf| + |s| <= max
    ensures PiecesInv(Cutting(st.out, st.buf + s + " "), max, ink + Ink(s))
  {
    hide TrimSpace, Ink, InkAll;
    assert InkAll(st.out) + Ink(st.buf + s + " ") == ink + Ink(s) by {
      InkOfSpace();
      InkTail(st.buf + s, " ");
      InkConcat(st.buf, s);
      Assoc(InkAll(st.out), Ink(st.buf), Ink(s));
    }
    InkOfSpace();
    TrimSpaceOfBlankSuffix(st.buf + s, " ");
    TrimSpaceKeepsInk(st.buf + s);
  }

  lemma AddSentenceKeeps(st: Cutting, s: string, max: nat, ink: string)
    requires max > 0 && PiecesInv(st, max, ink)
    ensures PiecesInv(AddSentence(st, s, max), max, ink + Ink(s))
  {
    hide TrimSpace, Ink, InkAll, HardSplit, PiecesInv;
    FlushPieceKeeps(st, max, ink);
    if |s| > max {
      AddLongSentenceKeeps(FlushPiece(st), s, max, ink);
    } else if |st.buf| + |s| + 1 > max && |st.buf| > 0 {
      AddShortSentenceKeeps(FlushPiece(st), s, max, ink);
    } else {
      AddShortSentenceKeeps(st, s, max, ink);
    }
  }

  lemma {:induction false} AddSentencesKeeps(ss: seq<string>, max: nat)
    requires max > 0
    ensures PiecesInv(AddSentences(ss, max), max, InkAll(ss))
  {
    if ss == [] {
      TrimSpaceKeepsInk("");
    } else {
      var n := |ss| - 1;
      AddSentencesKeeps(ss[..n], max);
      AddSentenceKeeps(AddSentences(ss[..n], max), ss[n], max, InkAll(ss[..n]));
      InkAllLast(ss);
    }
  }

  /** A paragraph of any length becomes non-empty pieces that fit and hold all its ink. */
  lemma OversizedPiecesFit(p: string, max: nat)
    requires max > 0
    ensures InkAll(OversizedPieces(p, max)) == Ink(p)
    ensures forall q :: q in OversizedPieces(p, max) ==> 0 < |q| <= max
  {
    SentencesKeepInk(p, 0);
    assert p[0..] == p;
    var st := AddSentences(SentencesFrom(p, 0), max);
    AddSentencesKeeps(SentencesFrom(p, 0), max);
    FlushPieceKeeps(st, max, Ink(p));
  }

  // ----- which sentences make which piece

  function Concat(ps: seq<string>): string {
    if ps == [] then "" else ps[0] + Concat(ps[1..])
  }

  lemma ConcatCons(p: string, ps: seq<string>)
    ensures Concat([p] + ps) == p + Concat(ps)
  {
    assert ([p] + ps)[1..] == ps;
  }

  lemma {:induction false} HardSplitText(s: string, max: nat)
    requires max > 0
    ensures Concat(HardSplit(s, max).out) + HardSplit(s, max).buf == s
  {
    if |s| > max {
      var rest := HardSplit(s[max..], max);
      HardSplitText(s[max..], max);
      assert HardSplit(s, max) == Cutting([s[..max]] + rest.out, rest.buf);
      hide HardSplit, Concat;
      ConcatCons(s[..max], rest.out);
      Assoc(s[..max], Concat(rest.out), rest.buf);
      assert s[..max] + s[max..] == s;
    } else {
      assert Concat([]) == "" && "" + s == s;
    }
  }

  lemma {:induction false} HardSplitLeaves(s: string, max: nat)
    requires max > 0
    ensures HardSplit(s, max).buf == "" <==> s == ""
  {
    if |s| > max {
      HardSplitLeaves(s[max..], max);
    }
  }

  /** The cuts are every `max` bytes; what is left over is no longer, and empty only for an empty sentence. */
  lemma HardSplitIsEven(s: string, max: nat)
    requires max > 0
    ensures var cut := HardSplit(s, max);
      && Concat(cut.out) + cut.buf == s
      && (forall p :: p in cut.out ==> |p| == max)
      && |cut.buf| <= max && (cut.buf == "" <==> s == "")
  {
    HardSplitKeeps(s, max);
    HardSplitText(s, max);
    HardSplitLeaves(s, max);
  }

  /** What the buffer holds of some sentences: the last cut of each, with a space. */
  function Words(ss: seq<string>, max: nat): string
    requires max > 0
  {
    if ss == [] then ""
    else
      var s := ss[|ss| - 1];
      var left := HardSplit(s, max).buf;
      Words(ss[..|ss| - 1], max) + if |s| > max && left == "" then "" else left + " "
  }

  function Piece(buffered: string): seq<string> {
    if TrimSpace(buffered) == "" then [] else [TrimSpace(buffered)]
  }

  /** A sentence joins what is buffered if it is not too long itself, and there is room or nothing is buffered. */
  predicate SentenceJoins(buffered: string, s: string, max: nat) {
    |s| <= max && (|buffered| + |s| + 1 <= max || buffered == "")
  }

  /** Every sentence of a group but the first joins those before it. */
  ghost predicate IsGroup(g: seq<string>, max: nat)
    requires max > 0
  {
    g != [] && forall j :: 0 < j < |g| ==> SentenceJoins(Words(g[..j], max), g[j], max)
  }

  /** Each group is followed by a sentence that does not join it. */
  ghost predicate Parted(gs: seq<seq<string>>, max: nat)
    requires max > 0
  {
    |gs| < 2 ||
    var n := |gs| - 1;
    Parted(gs[..n], max) && gs[n] != [] && !SentenceJoins(Words(gs[n - 1], max), gs[n][0], max)
  }

  function Flat(gs: seq<seq<string>>): seq<string> {
    if gs == [] then [] else Flat(gs[..|gs| - 1]) + gs[|gs| - 1]
  }

  /** What a group gives: the full cuts of its first sentence, and the rest as one piece. */
  function GroupOut(g: seq<string>, max: nat): seq<string>
    requires max > 0
  {
    if g == [] then [] else HardSplit(g[0], max).out + Piece(Words(g, max))
  }

  function GroupsOut(gs: seq<seq<string>>, max: nat): seq<string>
    requires max > 0
  {
    if gs == [] then [] else GroupsOut(gs[..|gs| - 1], max) + GroupOut(gs[|gs| - 1], max)
  }

  ghost predicate Grouped(gs: seq<seq<string>>, ss: seq<string>, max: nat)
    requires max > 0
  {
    Flat(gs) == ss && Parted(gs, max) && forall g :: g in gs ==> IsGroup(g, max)
  }

  /** The groups so far; the last one is still open. */
  ghost predicate Grouping(st: Cutting, gs: seq<seq<string>>, open: seq<string>, max: nat)
    requires max > 0
  {
    open != []
    && st.out == GroupsOut(gs, max) + HardSplit(open[0], max).out && st.buf == Words(open, max)
  }

  lemma WordsSnoc(ss: seq<string>, s: string, max: nat)
    requires max > 0
    ensures var left := HardSplit(s, max).buf;
      Words(ss + [s], max) == Words(ss, max) + if |s| > max && left == "" then "" else left + " "
  {
    assert (ss + [s])[..|ss|] == ss;
  }

  lemma GroupSnoc(g: seq<string>, s: string, max: nat)
    requires max > 0 && IsGroup(g, max) && SentenceJoins(Words(g, max), s, max)
    ensures IsGroup(g + [s], max)
  {
    hide Words, SentenceJoins;
    var all := g + [s];
    forall j | 0 < j < |all|
      ensures SentenceJoins(Words(all[..j], max), all[j], max)
    {
      assert all[..j] == if j < |g| then g[..j] else g;
    }
  }

  lemma GroupsSnoc(gs: seq<seq<string>>, g: seq<string>, max: nat)
    requires max > 0
    ensures Flat(gs + [g]) == Flat(gs) + g
    ensures GroupsOut(gs + [g], max) == GroupsOut(gs, max) + GroupOut(g, max)
    ensures Parted(gs + [g], max) <==>
              gs == [] || (Parted(gs, max) && g != [] && !SentenceJoins(Words(gs[|gs| - 1], max), g[0], max))
  {
    assert (gs + [g])[..|gs|] == gs;
  }

  lemma JoinKeepsGroups(gs: seq<seq<string>>, open: seq<string>, ss: seq<string>, s: string, max: nat)
    requires max > 0 && Grouped(gs + [open], ss, max) && SentenceJoins(Words(open, max), s, max)
    ensures Grouped(gs + [open + [s]], ss + [s], max)
  {
    hide Words, SentenceJoins, IsGroup, Parted, Flat;
    assert open in gs + [open];
    GroupSnoc(open, s, max);
    GroupsSnoc(gs, open, max);
    GroupsSnoc(gs, open + [s], max);
    NonEmpty(open, max);
    assert (open + [s])[0] == open[0];
    assert Flat(gs) + (open + [s]) == Flat(gs) + open + [s];
    forall g | g in gs + [open + [s]]
      ensures IsGroup(g, max)
    {
      assert g in gs ==> g in gs + [open];
    }
  }

  lemma NonEmpty(g: seq<string>, max: nat)
    requires max > 0 && IsGroup(g, max)
    ensures g != []
  {
  }

  lemma CutKeepsGroups(gs: seq<seq<string>>, open: seq<string>, ss: seq<string>, s: string, max: nat)
    requires max > 0 && Grouped(gs + [open], ss, max) && !SentenceJoins(Words(open, max), s, max)
    ensures Grouped(gs + [open] + [[s]], ss + [s], max)
  {
    hide Words, SentenceJoins, Parted, Flat;
    GroupsSnoc(gs + [open], [s], max);
  }

  lemma JoinedSentence(st: Cutting, s: string, max: nat)
    requires max > 0 && SentenceJoins(st.buf, s, max)
    ensures HardSplit(s, max) == Cutting([], s)
    ensures AddSentence(st, s, max) == Cutting(st.out, st.buf + (s + " "))
  {
    hide TrimSpace;
    assert st.buf + s + " " == st.buf + (s + " ");
  }

  lemma NewGroup(st: Cutting, s: string, max: nat)
    requires max > 0 && !SentenceJoins(st.buf, s, max)
    ensures var left := HardSplit(s, max).buf;
      AddSentence(st, s, max) == Cutting(
        st.out + Piece(st.buf) + HardSplit(s, max).out, if |s| > max && left == "" then "" else left + " ")
  {
    hide TrimSpace;
    assert st.out + [] == st.out && st.out + Piece(st.buf) + [] == st.out + Piece(st.buf);
    assert "" + s + " " == s + " ";
  }

  lemma FirstGroup(s: string, max: nat)
    requires max > 0
    ensures Grouping(AddSentence(Cutting([], ""), s, max), [], [s], max)
    ensures Grouped([[s]], [s], max)
  {
    WordsSnoc([], s, max);
    assert [] + [s] == [s];
    assert "" + (HardSplit(s, max).buf + " ") == HardSplit(s, max).buf + " ";
    assert [] + HardSplit(s, max).out == HardSplit(s, max).out;
    GroupsSnoc([], [s], max);
    assert [] + [[s]] == [[s]];
    if |s| > max {
      NewGroup(Cutting([], ""), s, max);
      assert TrimSpace("") == "";
    } else {
      JoinedSentence(Cutting([], ""), s, max);
    }
  }

  lemma NextGroup(st: Cutting, gs: seq<seq<string>>, open: seq<string>, s: string, max: nat)
    requires max > 0 && Grouping(st, gs, open, max)
    ensures if SentenceJoins(st.buf, s, max) then Grouping(AddSentence(st, s, max), gs, open + [s], max)
            else Grouping(AddSentence(st, s, max), gs + [open], [s], max)
  {
    if SentenceJoins(st.buf, s, max) {
      JoinedSentence(st, s, max);
      WordsSnoc(open, s, max);
      hide *;
      assert (open + [s])[0] == open[0];
    } else {
      NewGroup(st, s, max);
      GroupsSnoc(gs, open, max);
      OneWord(s, max);
      hide TrimSpace, HardSplit, SentenceJoins, AddSentence, Piece, Words, GroupsOut;
      Assoc3(GroupsOut(gs, max), HardSplit(open[0], max).out, Piece(st.buf));
    }
  }

  lemma OneWord(s: string, max: nat)
    requires max > 0
    ensures var left := HardSplit(s, max).buf;
      Words([s], max) == if |s| > max && left == "" then "" else left + " "
  {
    WordsSnoc([], s, max);
    assert [] + [s] == [s] && Words([], max) == "";
  }

  lemma {:induction false} SentencesGrouping(ss: seq<string>, max: nat)
    returns (gs: seq<seq<string>>, open: seq<string>)
    requires max > 0 && ss != []
    ensures Grouping(AddSentences(ss, max), gs, open, max) && Grouped(gs + [open], ss, max)
  {
    hide Grouping, Grouped, SentenceJoins, AddSentence;
    var n := |ss| - 1;
    assert ss[..n] + [ss[n]] == ss;
    if n == 0 {
      FirstGroup(ss[0], max);
      gs, open := [], [ss[0]];
      assert [] + [[ss[0]]] == [[ss[0]]] && ss == [ss[0]];
      assert AddSentences([], max) == Cutting([], "");
    } else {
      var st := AddSentences(ss[..n], max);
      gs, open := SentencesGrouping(ss[..n], max);
      NextGroup(st, gs, open, ss[n], max);
      BufferIsWords(st, gs, open, max);
      if SentenceJoins(st.buf, ss[n], max) {
        JoinKeepsGroups(gs, open, ss[..n], ss[n], max);
        open := open + [ss[n]];
      } else {
        CutKeepsGroups(gs, open, ss[..n], ss[n], max);
        gs, open := gs + [open], [ss[n]];
      }
    }
  }

  lemma BufferIsWords(st: Cutting, gs: seq<seq<string>>, open: seq<string>, max: nat)
    requires max > 0 && Grouping(st, gs, open, max)
    ensures st.buf == Words(open, max)
  {
  }

  lemma LastGroup(st: Cutting, gs: seq<seq<string>>, open: seq<string>, max: nat)
    requires max > 0 && Grouping(st, gs, open, max)
    ensures FlushPiece(st).out == GroupsOut(gs + [open], max)
  {
    hide TrimSpace, HardSplit, Words, GroupsOut;
    GroupsSnoc(gs, open, max);
    Assoc3(GroupsOut(gs, max), HardSplit(open[0], max).out, Piece(st.buf));
    assert st.out + [] == st.out;
  }

  /** The sentences of a long paragraph make pieces in groups, each as long as sentences join: one that is too
      long opens a group with its cuts of full length, and its rest joins what follows. */
  lemma OversizedPiecesAreGroups(p: string, max: nat) returns (gs: seq<seq<string>>)
    requires max > 0
    ensures Grouped(gs, SentencesFrom(p, 0), max) && OversizedPieces(p, max) == GroupsOut(gs, max)
  {
    var ss := SentencesFrom(p, 0);
    if ss == [] {
      gs := [];
      assert TrimSpace("") == "";
    } else {
      hide Grouping, Grouped, SentencesFrom, AddSentences, FlushPiece;
      var closed, open := SentencesGrouping(ss, max);
      LastGroup(AddSentences(ss, max), closed, open, max);
      gs := closed + [open];
    }
  }

  // ----- chunks

  function Expanded(ps: seq<string>, max: nat): seq<string>
    requires max > 0
  {
    if ps == [] then []
    else
      Expanded(ps[..|ps| - 1], max) + Fitted(ps[|ps| - 1], max)
  }

  function Fitted(p: string, max: nat): seq<string>
    requires max > 0
  {
    if |p| <= max then [p] else OversizedPieces(p, max)
  }

  /** The pieces that are packed into chunks. */
  function TextPieces(text: string, max: nat): seq<string>
    requires max > 0
  {
    Expanded(Paragraphs(Normalized(text)), max)
  }

  datatype Packing = Packing(out: seq<Chunk>, buf: string)

  /** The end of a chunk that is repeated at the start of the next one. */
  function CarriedTail(s: string, overlap: nat): string {
    if overlap > 0 && |s| > overlap then s[|s| - overlap..] else ""
  }

  function FlushChunk(st: Packing, overlap: nat): Packing {
    var s := TrimSpace(st.buf);
    if s == "" then st
    else
      var tail := CarriedTail(s, overlap);
      Packing(st.out + [Chunk(|st.out|, s, ApproxTokens(s))], if tail == "" then "" else tail + "\n")
  }

  function Pack(st: Packing, p: string, opt: ChunkOptions): Packing
    requires opt.overlapChars >= 0
  {
    var st' := if |st.buf| + |p| + 1 > opt.maxChars && |st.buf| > 0
               then FlushChunk(st, opt.overlapChars) else st;
    Packing(st'.out, st'.buf + p + "\n\n")
  }

  function PackAll(ps: seq<string>, opt: ChunkOptions): Packing
    requires opt.overlapChars >= 0
  {
    if ps == [] then Packing([], "")
    else Pack(PackAll(ps[..|ps| - 1], opt), ps[|ps| - 1], opt)
  }

  function Chunks(text: string, opt: ChunkOptions): seq<Chunk> {
    var o := Effective(opt);
    FlushChunk(PackAll(TextPieces(text, o.maxChars), o), o.overlapChars).out
  }

  method ChunkText(text0: string, opt0: ChunkOptions) returns (out: seq<Chunk>)
    ensures out == Chunks(text0, opt0)
  {
    var opt := opt0;
    if opt.maxChars <= 0 {
      opt := DEFAULT_OPTIONS;
    }
    if opt.overlapChars < 0 || opt.overlapChars >= opt.maxChars {
      opt := opt.(overlapChars := 0);
    }
    var text := Normalize(text0);
    if text == "" {
      return [];
    }
    var paragraphs := SplitParagraphs(text);
    var expanded := ExpandParagraphs(paragraphs, opt.maxChars);
    out := PackPieces(expanded, opt);
  }

  // The loop of ChunkText that cuts up the paragraphs that are too long.
  method ExpandParagraphs(paragraphs: seq<string>, max: nat) returns (expanded: seq<string>)
    requires max > 0
    ensures expanded == Expanded(paragraphs, max)
  {
    hide OversizedPieces;
    expanded := [];
    for i := 0 to |paragraphs|
      invariant expanded == Expanded(paragraphs[..i], max)
    {
      assert paragraphs[..i + 1][..i] == paragraphs[..i];
      var p := paragraphs[i];
      if |p| <= max {
        expanded := expanded + [p];
      } else {
        var cut := SplitOversized(p, max);
        expanded := expanded + cut;
      }
    }
    assert paragraphs[..|paragraphs|] == paragraphs;
  }

  // The accumulate-and-flush loop of ChunkText.
  method PackPieces(expanded: seq<string>, opt: ChunkOptions) returns (out: seq<Chunk>)
    requires 0 <= opt.overlapChars
    ensures out == FlushChunk(PackAll(expanded, opt), opt.overlapChars).out
  {
    out := [];
    var buf := "";
    for i := 0 to |expanded|
      invariant Packing(out, buf) == PackAll(expanded[..i], opt)
    {
      assert expanded[..i + 1][..i] == expanded[..i];
      var p := expanded[i];
      if |buf| + |p| + 1 > opt.maxChars && |buf| > 0 {
        out, buf := FlushBuffer(out, buf, opt.overlapChars);
      }
      buf := buf + p + "\n\n";
    }
    assert expanded[..|expanded|] == expanded;
    out, buf := FlushBuffer(out, buf, opt.overlapChars);
  }

  // The flush closure of ChunkText: a blank buffer is left as it is.
  method FlushBuffer(out0: seq<Chunk>, buf0: string, overlap: nat) returns (out: seq<Chunk>, buf: string)
    ensures Packing(out, buf) == FlushChunk(Packing(out0, buf0), overlap)
  {
    out, buf := out0, buf0;
    var s := TrimSpace(buf);
    if s == "" {
      return;
    }
    out := out + [Chunk(|out|, s, ApproxTokens(s))];
    if overlap > 0 && |s| > overlap {
      var tail := s[|s| - overlap..];
      buf := tail;
      buf := buf + "\n";
    } else {
      buf := "";
    }
  }

  // ----- which pieces make which chunk

  /** Pieces as the buffer holds them, each with a blank line after it. */
  function Blocks(ps: seq<string>): string {
    if ps == [] then "" else Blocks(ps[..|ps| - 1]) + ps[|ps| - 1] + "\n\n"
  }

  /** What the buffer starts with after k chunks: the last n bytes of chunk k - 1 on a line of their own,
      if it is longer than that. */
  function Lead(out: seq<Chunk>, k: nat, n: int): string
    requires k <= |out|
  {
    if k == 0 then ""
    else
      var c := out[k - 1].content;
      if 0 < n < |c| then c[|c| - n..] + "\n" else ""
  }

  /** A piece joins what is buffered if there is room, or nothing but white space before it. */
  predicate Joins(buffered: string, p: string, max: int) {
    |buffered| + |p| + 1 <= max || Ink(buffered) == ""
  }

  /** `cuts` says where the chunks begin. What follows the last cut is in the buffer. */
  ghost predicate Layout(out: seq<Chunk>, buf: string, ps: seq<string>, opt: ChunkOptions, cuts: seq<nat>) {
    && |cuts| == |out| + 1 && cuts[0] == 0
    && (forall k :: 0 <= k < |out| ==> cuts[k] < cuts[k + 1])
    && (forall k :: 0 <= k <= |out| ==> cuts[k] < |ps| || cuts[k] == |ps| == 0)
    && (forall k :: 0 <= k < |out| ==> Filled(out, k, ps, opt, cuts[k], cuts[k + 1]))
    && buf == Lead(out, |out|, opt.overlapChars) + Blocks(ps[cuts[|out|]..])
    && AllJoin(out, |out|, ps, opt, cuts[|out|], |ps|)
  }

  /** Chunk k is what pieces a to b make with its lead; the next piece finds no room. */
  ghost predicate Filled(out: seq<Chunk>, k: nat, ps: seq<string>, opt: ChunkOptions, a: nat, b: nat)
    requires k < |out|
  {
    && a < b < |ps|
    && AllJoin(out, k, ps, opt, a, b)
    && var all := Lead(out, k, opt.overlapChars) + Blocks(ps[a..b]);
       out[k].content == TrimSpace(all) && !Joins(all, ps[b], opt.maxChars)
  }

  ghost predicate AllJoin(out: seq<Chunk>, k: nat, ps: seq<string>, opt: ChunkOptions, a: nat, b: nat)
    requires k <= |out|
  {
    && a <= b <= |ps|
    && forall j {:trigger ps[j]} :: a < j < b ==>
         Joins(Lead(out, k, opt.overlapChars) + Blocks(ps[a..j]), ps[j], opt.maxChars)
  }

  lemma BlocksSnoc(ps: seq<string>, a: nat, b: nat)
    requires a <= b < |ps|
    ensures Blocks(ps[a..b + 1]) == Blocks(ps[a..b]) + ps[b] + "\n\n"
  {
    assert ps[a..b + 1][..b - a] == ps[a..b];
  }

  lemma FilledStays(out: seq<Chunk>, k: nat, ps: seq<string>, opt: ChunkOptions, a: nat, b: nat,
                    c: seq<Chunk>, p: string)
    requires k < |out| && Filled(out, k, ps, opt, a, b)
    ensures Filled(out + c, k, ps + [p], opt, a, b)
  {
    AllJoinStays(out, k, ps, opt, a, b, c, p);
    assert (ps + [p])[a..b] == ps[a..b] && (ps + [p])[b] == ps[b];
  }

  lemma AllJoinStays(out: seq<Chunk>, k: nat, ps: seq<string>, opt: ChunkOptions, a: nat, b: nat,
                     c: seq<Chunk>, p: string)
    requires k <= |out| && AllJoin(out, k, ps, opt, a, b)
    ensures AllJoin(out + c, k, ps + [p], opt, a, b)
    ensures Lead(out + c, k, opt.overlapChars) == Lead(out, k, opt.overlapChars)
  {
    var all := ps + [p];
    forall j {:trigger all[j]} | a < j < b
      ensures Joins(Lead(out + c, k, opt.overlapChars) + Blocks(all[a..j]), all[j], opt.maxChars)
    {
      assert all[a..j] == ps[a..j] && all[j] == ps[j];
    }
  }

  lemma AppendKeepsLayout(out: seq<Chunk>, buf: string, ps: seq<string>, p: string, opt: ChunkOptions, cuts: seq<nat>)
    requires Layout(out, buf, ps, opt, cuts) && (ps == [] || Joins(buf, p, opt.maxChars))
    ensures Layout(out, buf + p + "\n\n", ps + [p], opt, cuts)
  {
    hide TrimSpace, Ink, Lead, Filled, AllJoin, Joins, Blocks;
    var a := cuts[|out|];
    AllFilledStay(out, ps, opt, cuts, p);
    BufferSnoc(out, ps, p, opt, a);
    AllJoinSnoc(out, ps, p, opt, a);
  }

  lemma AllFilledStay(out: seq<Chunk>, ps: seq<string>, opt: ChunkOptions, cuts: seq<nat>, p: string)
    requires |cuts| == |out| + 1
    requires forall k :: 0 <= k < |out| ==> Filled(out, k, ps, opt, cuts[k], cuts[k + 1])
    ensures forall k :: 0 <= k < |out| ==> Filled(out, k, ps + [p], opt, cuts[k], cuts[k + 1])
  {
    hide Filled;
    forall k | 0 <= k < |out|
      ensures Filled(out, k, ps + [p], opt, cuts[k], cuts[k + 1])
    {
      FilledStays(out, k, ps, opt, cuts[k], cuts[k + 1], [], p);
      assert out + [] == out;
    }
  }

  lemma BufferSnoc(out: seq<Chunk>, ps: seq<string>, p: string, opt: ChunkOptions, a: nat)
    requires a <= |ps|
    ensures var lead := Lead(out, |out|, opt.overlapChars);
      lead + Blocks((ps + [p])[a..]) == lead + Blocks(ps[a..]) + p + "\n\n"
  {
    hide Lead, Blocks;
    var all := ps + [p];
    BlocksSnoc(all, a, |ps|);
    assert all[a..|ps|] == ps[a..] && all[a..|all|] == all[a..];
    Assoc(Lead(out, |out|, opt.overlapChars), Blocks(ps[a..]), p);
    Assoc(Lead(out, |out|, opt.overlapChars), Blocks(ps[a..]) + p, "\n\n");
  }

  lemma AllJoinSnoc(out: seq<Chunk>, ps: seq<string>, p: string, opt: ChunkOptions, a: nat)
    requires AllJoin(out, |out|, ps, opt, a, |ps|) && (a < |ps| || a == |ps| == 0)
    requires a < |ps| ==> Joins(Lead(out, |out|, opt.overlapChars) + Blocks(ps[a..]), p, opt.maxChars)
    ensures AllJoin(out, |out|, ps + [p], opt, a, |ps| + 1)
  {
    AllJoinStays(out, |out|, ps, opt, a, |ps|, [], p);
    assert out + [] == out;
    assert (ps + [p])[a..|ps|] == ps[a..];
  }

  lemma SomethingBuffered(out: seq<Chunk>, buf: string, ps: seq<string>, opt: ChunkOptions, cuts: seq<nat>)
    requires Layout(out, buf, ps, opt, cuts) && Ink(buf) != ""
    ensures ps != []
  {
    hide TrimSpace, Joins, AllJoin;
    InkOfNothing();
    if |out| > 0 {
      assert Filled(out, 0, ps, opt, cuts[0], cuts[1]);
    } else {
      assert Lead(out, 0, opt.overlapChars) == "" && Blocks([]) == "";
      assert buf == "" + Blocks(ps[0..]) == Blocks(ps[0..]);
      assert ps[0..] == ps;
    }
  }

  lemma CutKeepsLayout(out: seq<Chunk>, buf: string, ps: seq<string>, p: string, opt: ChunkOptions, cuts: seq<nat>,
                       c: Chunk)
    requires Layout(out, buf, ps, opt, cuts) && c.content == TrimSpace(buf)
    requires Ink(buf) != "" && !Joins(buf, p, opt.maxChars)
    ensures Layout(out + [c], Lead(out + [c], |out| + 1, opt.overlapChars) + p + "\n\n", ps + [p], opt, cuts + [|ps|])
  {
    var all, more, a := ps + [p], out + [c], cuts[|out|];
    SomethingBuffered(out, buf, ps, opt, cuts);
    hide TrimSpace, Joins, Ink, Lead, Filled, AllJoin, Blocks;
    forall k | 0 <= k < |out|
      ensures Filled(more, k, all, opt, cuts[k], cuts[k + 1])
    {
      FilledStays(out, k, ps, opt, cuts[k], cuts[k + 1], [c], p);
    }
    LastFilled(out, buf, ps, p, opt, a, c);
    OneBlock(more, all, opt, |ps|);
    assert all[|ps|..] == [p];
  }

  lemma LastFilled(out: seq<Chunk>, buf: string, ps: seq<string>, p: string, opt: ChunkOptions, a: nat, c: Chunk)
    requires a < |ps| && AllJoin(out, |out|, ps, opt, a, |ps|) && c.content == TrimSpace(buf)
    requires buf == Lead(out, |out|, opt.overlapChars) + Blocks(ps[a..]) && !Joins(buf, p, opt.maxChars)
    ensures Filled(out + [c], |out|, ps + [p], opt, a, |ps|)
  {
    hide TrimSpace, Joins, Ink;
    AllJoinStays(out, |out|, ps, opt, a, |ps|, [c], p);
    assert (ps + [p])[a..|ps|] == ps[a..];
  }

  lemma OneBlock(out: seq<Chunk>, ps: seq<string>, opt: ChunkOptions, a: nat)
    requires a + 1 == |ps|
    ensures Blocks(ps[a..]) == ps[a] + "\n\n"
    ensures AllJoin(out, |out|, ps, opt, a, |ps|)
    ensures Lead(out, |out|, opt.overlapChars) + (ps[a] + "\n\n") == Lead(out, |out|, opt.overlapChars) + ps[a] + "\n\n"
  {
    assert ps[a..] == [ps[a]] && [ps[a]][..0] == [];
    assert Blocks([]) == "";
  }

  /** One step of the packing either lets the piece join, or closes a chunk before it. */
  lemma PackCases(st: Packing, p: string, opt: ChunkOptions)
    requires opt.overlapChars >= 0
    ensures var s := TrimSpace(st.buf);
      Pack(st, p, opt) ==
        if Joins(st.buf, p, opt.maxChars) then Packing(st.out, st.buf + p + "\n\n")
        else var out := st.out + [Chunk(|st.out|, s, ApproxTokens(s))];
          Packing(out, Lead(out, |out|, opt.overlapChars) + p + "\n\n")
    ensures !Joins(st.buf, p, opt.maxChars) ==> Ink(st.buf) != ""
  {
    TrimSpaceKeepsInk(st.buf);
    hide TrimSpace, ApproxTokens;
    InkOfNothing();
    assert st.buf == "" ==> Ink(st.buf) == "";
  }

  lemma PackKeepsLayout(st: Packing, ps: seq<string>, p: string, opt: ChunkOptions, cuts: seq<nat>)
    returns (more: seq<nat>)
    requires opt.overlapChars >= 0 && Layout(st.out, st.buf, ps, opt, cuts)
    ensures Layout(Pack(st, p, opt).out, Pack(st, p, opt).buf, ps + [p], opt, more)
  {
    PackCases(st, p, opt);
    hide Layout, Pack, TrimSpace, Ink, Joins, Lead, ApproxTokens;
    if Joins(st.buf, p, opt.maxChars) {
      AppendKeepsLayout(st.out, st.buf, ps, p, opt, cuts);
      more := cuts;
    } else {
      var s := TrimSpace(st.buf);
      CutKeepsLayout(st.out, st.buf, ps, p, opt, cuts, Chunk(|st.out|, s, ApproxTokens(s)));
      more := cuts + [|ps|];
    }
  }

  lemma {:induction false} PackAllLayout(ps: seq<string>, opt: ChunkOptions) returns (cuts: seq<nat>)
    requires opt.overlapChars >= 0
    ensures Layout(PackAll(ps, opt).out, PackAll(ps, opt).buf, ps, opt, cuts)
  {
    if ps == [] {
      cuts := [0];
      assert Blocks([]) == "";
    } else {
      hide Layout, Pack;
      var n := |ps| - 1;
      cuts := PackAllLayout(ps[..n], opt);
      cuts := PackKeepsLayout(PackAll(ps[..n], opt), ps[..n], ps[n], opt, cuts);
      assert ps[..n] + [ps[n]] == ps;
    }
  }

  // ----- nothing is lost or reordered

  function Carried(out: seq<Chunk>, overlap: nat): string {
    if out == [] then "" else CarriedTail(out[|out| - 1].content, overlap)
  }

  function After(s: string, prefix: string): string {
    if prefix <= s then s[|prefix|..] else s
  }

  /** The ink of all chunks, each without the ink of the tail it repeats. */
  function NewInk(out: seq<Chunk>, overlap: nat): string {
    if out == [] then ""
    else
      var n := |out| - 1;
      NewInk(out[..n], overlap) + After(Ink(out[n].content), Ink(Carried(out[..n], overlap)))
  }

  /** Every chunk starts with the tail of the one before it. */
  ghost predicate CarriesTails(out: seq<Chunk>, overlap: nat) {
    forall k :: 0 <= k < |out| ==> Ink(Carried(out[..k], overlap)) <= Ink(out[k].content)
  }

  ghost predicate PackInv(st: Packing, overlap: nat, ink: string) {
    && CarriesTails(st.out, overlap)
    && Ink(Carried(st.out, overlap)) <= Ink(st.buf)
    && NewInk(st.out, overlap) + After(Ink(st.buf), Ink(Carried(st.out, overlap))) == ink
  }

  lemma AddChunkInk(out: seq<Chunk>, c: Chunk, overlap: nat)
    requires CarriesTails(out, overlap) && Ink(Carried(out, overlap)) <= Ink(c.content)
    ensures CarriesTails(out + [c], overlap)
    ensures NewInk(out + [c], overlap)
            == NewInk(out, overlap) + After(Ink(c.content), Ink(Carried(out, overlap)))
  {
    var n := |out|;
    forall k | 0 <= k <= n
      ensures Ink(Carried((out + [c])[..k], overlap)) <= Ink((out + [c])[k].content)
    {
      assert (out + [c])[..k] == out[..k];
      assert out[..n] == out;
    }
    assert (out + [c])[..n] == out;
  }

  lemma FlushChunkInk(st: Packing, overlap: nat, ink: string)
    requires PackInv(st, overlap, ink)
    ensures var f := FlushChunk(st, overlap);
      PackInv(f, overlap, ink) && NewInk(f.out, overlap) == ink
  {
    hide TrimSpace, Ink, NewInk, ApproxTokens;
    InkOfNothing();
    TrimSpaceKeepsInk(st.buf);
    var s := TrimSpace(st.buf);
    if s == "" {
      assert NewInk(st.out, overlap) + "" == NewInk(st.out, overlap);
    } else {
      AddChunkInk(st.out, Chunk(|st.out|, s, ApproxTokens(s)), overlap);
      InkOfNewlines();
      InkTail(CarriedTail(s, overlap), "\n");
      assert ink + "" == ink;
    }
  }

  lemma AfterConcat(s: string, t: string, prefix: string)
    requires prefix <= s
    ensures prefix <= s + t && After(s + t, prefix) == After(s, prefix) + t
  {
  }

  lemma AppendInk(st: Packing, p: string, overlap: nat, ink: string)
    requires PackInv(st, overlap, ink)
    ensures PackInv(Packing(st.out, st.buf + p + "\n\n"), overlap, ink + Ink(p))
  {
    var carried := Ink(Carried(st.out, overlap));
    InkOfNewlines();
    InkTail(st.buf + p, "\n\n");
    InkConcat(st.buf, p);
    AfterConcat(Ink(st.buf), Ink(p), carried);
    Assoc(NewInk(st.out, overlap), After(Ink(st.buf), carried), Ink(p));
  }

  lemma PackInk(st: Packing, p: string, opt: ChunkOptions, ink: string)
    requires opt.overlapChars >= 0 && PackInv(st, opt.overlapChars, ink)
    ensures PackInv(Pack(st, p, opt), opt.overlapChars, ink + Ink(p))
  {
    FlushChunkInk(st, opt.overlapChars, ink);
    if |st.buf| + |p| + 1 > opt.maxChars && |st.buf| > 0 {
      AppendInk(FlushChunk(st, opt.overlapChars), p, opt.overlapChars, ink);
    } else {
      AppendInk(st, p, opt.overlapChars, ink);
    }
  }

  lemma {:induction false} PackAllInk(ps: seq<string>, opt: ChunkOptions)
    requires opt.overlapChars >= 0
    ensures PackInv(PackAll(ps, opt), opt.overlapChars, InkAll(ps))
  {
    if ps != [] {
      var n := |ps| - 1;
      PackAllInk(ps[..n], opt);
      PackInk(PackAll(ps[..n], opt), ps[n], opt, InkAll(ps[..n]));
      InkAllLast(ps);
    }
  }

  lemma FittedFits(p: string, max: nat)
    requires max > 0 && p != ""
    ensures InkAll(Fitted(p, max)) == Ink(p)
    ensures forall q :: q in Fitted(p, max) ==> 0 < |q| <= max
  {
    InkOne(p);
    OversizedPiecesFit(p, max);
  }

  lemma {:induction false} ExpandedFits(ps: seq<string>, max: nat)
    requires max > 0 && forall k :: 0 <= k < |ps| ==> ps[k] != ""
    ensures InkAll(Expanded(ps, max)) == InkAll(ps)
    ensures forall q :: q in Expanded(ps, max) ==> 0 < |q| <= max
  {
    if ps != [] {
      var n := |ps| - 1;
      ExpandedFits(ps[..n], max);
      FittedFits(ps[n], max);
      InkAllConcat(Expanded(ps[..n], max), Fitted(ps[n], max));
      InkAllLast(ps);
    }
  }

  lemma ParagraphsOf(text: string)
    ensures InkAll(Paragraphs(Normalized(text))) == Ink(text)
    ensures var ps := Paragraphs(Normalized(text));
      forall k :: 0 <= k < |ps| ==> ps[k] != "" && Trimmed(ps[k])
  {
    NormalizedKeepsInk(text);
    InkOfNewlines();
    InkSplit(Normalized(text), "\n\n");
    TrimmedBlocksKeepInk(Split(Normalized(text), "\n\n"));
  }

  /** The pieces hold the ink of the text in order, and each of them fits. */
  lemma TextPiecesFit(text: string, max: nat)
    requires max > 0
    ensures InkAll(TextPieces(text, max)) == Ink(text)
    ensures forall p :: p in TextPieces(text, max) ==> 0 < |p| <= max
  {
    ParagraphsOf(text);
    ExpandedFits(Paragraphs(Normalized(text)), max);
  }

  lemma TrimmedHasInk(ps: seq<string>)
    requires ps != [] && ps[0] != "" && Trimmed(ps[0])
    ensures InkAll(ps) != ""
  {
    assert |Ink(ps[0])| > 0;
  }

  lemma EmptyPacksNothing(opt: ChunkOptions)
    requires opt.overlapChars >= 0
    ensures FlushChunk(PackAll([], opt), opt.overlapChars).out == []
  {
    TrimSpaceKeepsInk("");
  }

  lemma BlankTextHasNoChunks(text: string, opt: ChunkOptions)
    requires Ink(text) == ""
    ensures Chunks(text, opt) == []
  {
    var ps := Paragraphs(Normalized(text));
    assert ps == [] by {
      ParagraphsOf(text);
      if ps != [] {
        TrimmedHasInk(ps);
      }
    }
    assert Expanded([], Effective(opt).maxChars) == [];
    EmptyPacksNothing(Effective(opt));
  }

  /** Chunking loses and reorders nothing, and yields no chunk only for blank text. */
  lemma ChunksLoseNothing(text: string, opt: ChunkOptions)
    ensures var out := Chunks(text, opt);
      var overlap := Effective(opt).overlapChars;
      && CarriesTails(out, overlap)
      && NewInk(out, overlap) == Ink(text)
      && (out == [] <==> Ink(text) == "")
  {
    var o := Effective(opt);
    var ps := TextPieces(text, o.maxChars);
    TextPiecesFit(text, o.maxChars);
    PackAllInk(ps, o);
    FlushChunkInk(PackAll(ps, o), o.overlapChars, Ink(text));
    if Ink(text) == "" {
      BlankTextHasNoChunks(text, opt);
    }
  }

  // ----- the chunks of a text, one by one

  /** `cuts` says which pieces make which chunk. Every piece up to a cut finds room, or nothing but white
      space before it; the piece at the cut finds none. What is left after the last cut is blank. */
  ghost predicate LaidOut(out: seq<Chunk>, ps: seq<string>, opt: ChunkOptions, cuts: seq<nat>) {
    && |cuts| == |out| + 1 && cuts[0] == 0
    && (forall k :: 0 <= k < |out| ==> Made(out, k, ps, opt, cuts[k], cuts[k + 1]))
    && AllJoin(out, |out|, ps, opt, cuts[|out|], |ps|)
    && (cuts[|out|] < |ps| ==> Ink(Lead(out, |out|, opt.overlapChars) + Blocks(ps[cuts[|out|]..])) == "")
  }

  ghost predicate Made(out: seq<Chunk>, k: nat, ps: seq<string>, opt: ChunkOptions, a: nat, b: nat)
    requires k < |out|
  {
    && a < b <= |ps|
    && AllJoin(out, k, ps, opt, a, b)
    && var all := Lead(out, k, opt.overlapChars) + Blocks(ps[a..b]);
       out[k].content == TrimSpace(all) && (b < |ps| ==> !Joins(all, ps[b], opt.maxChars))
  }

  lemma AllMade(out: seq<Chunk>, more: seq<Chunk>, ps: seq<string>, opt: ChunkOptions, cuts: seq<nat>)
    requires |cuts| == |out| + 1
    requires forall k :: 0 <= k < |out| ==> Filled(out, k, ps, opt, cuts[k], cuts[k + 1])
    ensures forall k :: 0 <= k < |out| ==> Made(out + more, k, ps, opt, cuts[k], cuts[k + 1])
  {
    hide TrimSpace, Joins;
    forall k | 0 <= k < |out|
      ensures Made(out + more, k, ps, opt, cuts[k], cuts[k + 1])
    {
      SameLead(out, k, more, ps, opt, cuts[k], cuts[k + 1]);
    }
  }

  lemma SameLead(out: seq<Chunk>, k: nat, more: seq<Chunk>, ps: seq<string>, opt: ChunkOptions, a: nat, b: nat)
    requires k <= |out|
    ensures Lead(out + more, k, opt.overlapChars) == Lead(out, k, opt.overlapChars)
    ensures AllJoin(out + more, k, ps, opt, a, b) <==> AllJoin(out, k, ps, opt, a, b)
  {
  }

  lemma LastChunk(st: Packing, ps: seq<string>, opt: ChunkOptions, cuts: seq<nat>) returns (all: seq<nat>)
    requires opt.overlapChars >= 0 && Layout(st.out, st.buf, ps, opt, cuts)
    ensures LaidOut(FlushChunk(st, opt.overlapChars).out, ps, opt, all)
  {
    var n, s := |st.out|, TrimSpace(st.buf);
    TrimSpaceKeepsInk(st.buf);
    if s == "" {
      AllMade(st.out, [], ps, opt, cuts);
      assert st.out + [] == st.out;
      hide TrimSpace, Ink, Blocks, Joins, AllJoin, Lead;
      all := cuts;
    } else {
      SomethingBuffered(st.out, st.buf, ps, opt, cuts);
      var c := Chunk(n, s, ApproxTokens(s));
      AllMade(st.out, [c], ps, opt, cuts);
      SameLead(st.out, n, [c], ps, opt, cuts[n], |ps|);
      hide TrimSpace, Ink, Blocks, Joins, AllJoin, Lead, ApproxTokens;
      all := cuts + [|ps|];
      assert ps[cuts[n]..|ps|] == ps[cuts[n]..];
      NoneJoin(st.out + [c], ps, opt);
    }
  }

  lemma NoneJoin(out: seq<Chunk>, ps: seq<string>, opt: ChunkOptions)
    ensures AllJoin(out, |out|, ps, opt, |ps|, |ps|)
  {
  }

  /** Every chunk is what the next pieces make, as many as find room, after the repeated end of the chunk before it. */
  lemma ChunksAreLaidOut(text: string, opt: ChunkOptions) returns (cuts: seq<nat>)
    ensures LaidOut(Chunks(text, opt), TextPieces(text, Effective(opt).maxChars), Effective(opt), cuts)
  {
    var o := Effective(opt);
    hide LaidOut, Layout, FlushChunk, PackAll, TextPieces;
    var ps := TextPieces(text, o.maxChars);
    cuts := PackAllLayout(ps, o);
    cuts := LastChunk(PackAll(ps, o), ps, o, cuts);
  }

  lemma MadeFrom(out: seq<Chunk>, k: nat, ps: seq<string>, opt: ChunkOptions, a: nat, b: nat)
    requires k + 1 < |out| && Made(out, k + 1, ps, opt, a, b)
    ensures var c, n := out[k].content, opt.overlapChars;
      out[k + 1].content == TrimSpace((if 0 < n < |c| then c[|c| - n..] + "\n" else "") + Blocks(ps[a..b]))
  {
    hide TrimSpace, Joins, AllJoin, Blocks;
  }

  lemma NothingCarried(out: seq<Chunk>, k: nat, n: nat)
    requires k + 1 < |out| && !(0 < n < |out[k].content|)
    ensures NewInk(out[..k + 2], n) == NewInk(out[..k + 1], n) + Ink(out[k + 1].content)
  {
    assert out[..k + 2][..k + 1] == out[..k + 1];
    InkOfNothing();
    hide Ink;
  }

  /** A chunk longer than the overlap lends its last bytes, as many as the overlap, to the start of the next
      one. After any other chunk the next one repeats nothing: all of its ink is new. */
  lemma ChunkStartsWithTail(text: string, opt: ChunkOptions, k: nat) returns (rest: string)
    requires k + 1 < |Chunks(text, opt)|
    ensures var out := Chunks(text, opt);
      var c, n := out[k].content, Effective(opt).overlapChars;
      if 0 < n < |c| then out[k + 1].content == TrimSpace(c[|c| - n..] + "\n" + rest)
      else out[k + 1].content == TrimSpace(rest)
           && NewInk(out[..k + 2], n) == NewInk(out[..k + 1], n) + Ink(out[k + 1].content)
  {
    var out, o := Chunks(text, opt), Effective(opt);
    var ps := TextPieces(text, o.maxChars);
    var cuts := ChunksAreLaidOut(text, opt);
    assert Made(out, k + 1, ps, o, cuts[k + 1], cuts[k + 2]) && cuts[k + 2] <= |ps|;
    rest := Blocks(ps[cuts[k + 1]..cuts[k + 2]]);
    MadeFrom(out, k, ps, o, cuts[k + 1], cuts[k + 2]);
    hide *;
    var c, n := out[k].content, o.overlapChars;
    if !(0 < n < |c|) {
      NothingCarried(out, k, n);
      assert "" + rest == rest;
    }
  }

  // ----- size and shape

  /** The most bytes a chunk can have. */
  function Bound(opt: ChunkOptions): int {
    if opt.overlapChars == 0 then opt.maxChars else opt.maxChars + opt.overlapChars + 1
  }

  predicate WellShaped(c: Chunk, k: nat) {
    c.index == k && c.content != "" && Trimmed(c.content) && c.tokens == ApproxTokens(c.content)
  }

  ghost predicate SizeInv(st: Packing, opt: ChunkOptions) {
    && (forall k :: 0 <= k < |st.out| ==> WellShaped(st.out[k], k) && |st.out[k].content| <= Bound(opt))
    && |TrimSpace(st.buf)| <= Bound(opt)
  }

  lemma FlushChunkSize(st: Packing, opt: ChunkOptions)
    requires 0 <= opt.overlapChars < opt.maxChars && SizeInv(st, opt)
    ensures var f := FlushChunk(st, opt.overlapChars);
      && SizeInv(f, opt)
      && (Ink(f.buf) == "" || |f.buf| <= opt.overlapChars + 1)
      && (opt.overlapChars == 0 ==> Ink(f.buf) == "")
  {
    hide TrimSpace, Ink;
    InkOfNothing();
    TrimSpaceKeepsInk(st.buf);
    var f := FlushChunk(st, opt.overlapChars);
    TrimSpaceKeepsInk(f.buf);
  }

  lemma AppendSize(st: Packing, p: string, opt: ChunkOptions)
    requires 0 <= opt.overlapChars < opt.maxChars && SizeInv(st, opt) && |p| <= opt.maxChars
    requires Ink(st.buf) == "" || |st.buf| + |p| <= Bound(opt)
    ensures SizeInv(Packing(st.out, st.buf + p + "\n\n"), opt)
  {
    InkOfNewlines();
    TrimSpaceOfBlankSuffix(st.buf + p, "\n\n");
    if Ink(st.buf) == "" {
      TrimSpaceOfBlankPrefix(st.buf, p);
      TrimSpaceKeepsInk(p);
    } else {
      TrimSpaceKeepsInk(st.buf + p);
    }
  }

  lemma PackSize(st: Packing, p: string, opt: ChunkOptions)
    requires 0 <= opt.overlapChars < opt.maxChars && SizeInv(st, opt) && |p| <= opt.maxChars
    ensures SizeInv(Pack(st, p, opt), opt)
  {
    FlushChunkSize(st, opt);
    if |st.buf| + |p| + 1 > opt.maxChars && |st.buf| > 0 {
      AppendSize(FlushChunk(st, opt.overlapChars), p, opt);
    } else {
      AppendSize(st, p, opt);
    }
  }

  lemma {:induction false} PackAllSize(ps: seq<string>, opt: ChunkOptions)
    requires 0 <= opt.overlapChars < opt.maxChars
    requires forall k :: 0 <= k < |ps| ==> |ps[k]| <= opt.maxChars
    ensures SizeInv(PackAll(ps, opt), opt)
  {
    if ps == [] {
      TrimSpaceKeepsInk("");
    } else {
      var n := |ps| - 1;
      PackAllSize(ps[..n], opt);
      PackSize(PackAll(ps[..n], opt), ps[n], opt);
    }
  }

  /** Chunks are numbered from 0, trimmed and non-empty, and none exceeds the bound. */
  lemma ChunksFit(text: string, opt: ChunkOptions)
    ensures var out := Chunks(text, opt);
      forall k :: 0 <= k < |out| ==>
        WellShaped(out[k], k) && |out[k].content| <= Bound(Effective(opt))
  {
    var o := Effective(opt);
    var ps := TextPieces(text, o.maxChars);
    TextPiecesFit(text, o.maxChars);
    PackAllSize(ps, o);
    FlushChunkSize(PackAll(ps, o), o);
  }

  function TotalLength(out: seq<Chunk>): nat {
    if out == [] then 0 else TotalLength(out[..|out| - 1]) + |out[|out| - 1].content|
  }

  lemma {:induction false} InkWithinLength(s: string)
    ensures |Ink(s)| <= |s|
  {
    if s != "" {
      InkWithinLength(s[1..]);
    }
  }

  lemma {:induction false} NewInkWithinTotal(out: seq<Chunk>, overlap: nat)
    ensures |NewInk(out, overlap)| <= TotalLength(out)
  {
    if out != [] {
      var n := |out| - 1;
      NewInkWithinTotal(out[..n], overlap);
      InkWithinLength(out[n].content);
    }
  }

  /** The chunks hold at least as many bytes as the text has non-space bytes. */
  lemma ChunksCoverInk(text: string, opt: ChunkOptions)
    ensures TotalLength(Chunks(text, opt)) >= |Ink(text)|
  {
    ChunksLoseNothing(text, opt);
    NewInkWithinTotal(Chunks(text, opt), Effective(opt).overlapChars);
  }

  // ----- the documented length

  /** What the documentation promises: the text's length, less one overlap a chunk. */
  predicate DocumentedLength(text: string, opt: ChunkOptions) {
    var out := Chunks(text, opt);
    TotalLength(out) >= |text| - Effective(opt).overlapChars * |out|
  }

  lemma BlankMeetsLengthIffEmpty(text: string, opt: ChunkOptions)
    requires Ink(text) == ""
    ensures DocumentedLength(text, opt) <==> text == ""
  {
    BlankTextHasNoChunks(text, opt);
  }

  /** One overlap makes up for as much white space. */
  lemma LittleSpaceMeetsLength(text: string, opt: ChunkOptions)
    requires Ink(text) != "" && |text| - |Ink(text)| <= Effective(opt).overlapChars
    ensures DocumentedLength(text, opt)
  {
    hide Chunks, Ink;
    ChunksLoseNothing(text, opt);
    ChunksCoverInk(text, opt);
    TimesAtLeast(Effective(opt).overlapChars, |Chunks(text, opt)|);
  }

  lemma TimesAtLeast(m: nat, k: nat)
    requires k >= 1
    ensures m * k >= m
  {
  }

  function Padded(n: nat): string {
    "a" + Run(' ', n)
  }

  lemma {:induction false} PaddedTrims(n: nat)
    ensures TrimRight(Padded(n), BLANKS) == "a"
    ensures |Padded(n)| == n + 1 && Ink(Padded(n)) == "a"
  {
    if n > 0 {
      PaddedTrims(n - 1);
      assert Padded(n)[..n] == Padded(n - 1);
      assert Padded(n) == Padded(n - 1) + " ";
      InkOfSpace();
      InkTail(Padded(n - 1), " ");
    } else {
      assert Padded(0) == "a";
    }
  }

  lemma PaddedNormalizes(n: nat)
    ensures Normalized(Padded(n)) == "a"
  {
    hide TrimRight, Split, Join;
    PaddedTrims(n);
    var text := Padded(n);
    SplitWithout(text, "\r\n");
    SplitWithout(text, "\r");
    SplitWithout(text, "\n");
    JoinOne(text, "\n");
    JoinOne("a", "\n");
    assert TrimLines([text]) == ["a"];
  }

  lemma OnePiece(max: nat)
    requires max > 0
    ensures Expanded(Paragraphs("a"), max) == ["a"]
  {
    hide TrimSpace, Split, OversizedPieces;
    TrimmedIsKept("a");
    SplitWithout("a", "\n\n");
    assert ["a"][..0] == [];
    assert TrimmedBlocks([]) == [] && Paragraphs("a") == ["a"];
    assert Expanded([], max) == [];
  }

  lemma OneChunk(o: ChunkOptions)
    requires o.overlapChars >= 0
    ensures var out := FlushChunk(PackAll(["a"], o), o.overlapChars).out;
      |out| == 1 && TotalLength(out) == 1
  {
    hide TrimSpace, ApproxTokens;
    assert ["a"][..0] == [];
    assert PackAll([], o) == Packing([], "");
    assert PackAll(["a"], o) == Pack(PackAll([], o), "a", o);
    assert "" + "a" + "\n\n" == "a" + "\n\n";
    var st := PackAll(["a"], o);
    assert st == Packing([], "a" + "\n\n");
    InkOfNewlines();
    TrimSpaceOfBlankSuffix("a", "\n\n");
    TrimmedIsKept("a");
    var out := FlushChunk(st, o.overlapChars).out;
    assert |out| == 1 && out[0].content == "a" && out[..0] == [];
  }

  lemma PaddedHasOneChunk(n: nat, opt: ChunkOptions)
    ensures |Chunks(Padded(n), opt)| == 1 && TotalLength(Chunks(Padded(n), opt)) == 1
  {
    hide Normalized, Paragraphs, Expanded, FlushChunk, PackAll;
    PaddedNormalizes(n);
    OnePiece(Effective(opt).maxChars);
    OneChunk(Effective(opt));
  }

  /** Of the texts that are not blank, those with at most n bytes of white space all have the documented
      length exactly when n is no more than the overlap. */
  lemma DocumentedLengthIsExact(n: nat, opt: ChunkOptions)
    ensures n <= Effective(opt).overlapChars <==>
            forall text :: Ink(text) != "" && |text| - |Ink(text)| <= n ==> DocumentedLength(text, opt)
  {
    hide DocumentedLength, Ink;
    if n <= Effective(opt).overlapChars {
      forall text | Ink(text) != "" && |text| - |Ink(text)| <= n
        ensures DocumentedLength(text, opt)
      {
        LittleSpaceMeetsLength(text, opt);
      }
    } else {
      PaddedTrims(n);
      PaddedIsShort(n, opt);
    }
  }

  lemma PaddedIsShort(n: nat, opt: ChunkOptions)
    requires n > Effective(opt).overlapChars
    ensures !DocumentedLength(Padded(n), opt)
  {
    hide Chunks;
    PaddedTrims(n);
    PaddedHasOneChunk(n, opt);
  }

  // ----- the bound is exact

  function Run(c: char, n: nat): string {
    seq(n, _ => c)
  }

  lemma TwoLines(a: string, b: string)
    requires '\r' !in a && '\r' !in b && '\n' !in a && '\n' !in b && Trimmed(a) && Trimmed(b)
    ensures IsNormal(a + "\n\n" + b)
  {
    hide Split, Join;
    ThreeLines(a, b);
    SplitJoin([a, "", b], "\n");
    assert TrimRight(a, BLANKS) == a && TrimRight(b, BLANKS) == b;
  }

  lemma ThreeLines(a: string, b: string)
    ensures Join([a, "", b], "\n") == a + "\n\n" + b
  {
    assert [a] + ["", b] == [a, "", b] && [""] + [b] == ["", b];
    JoinCons(a, ["", b], "\n");
    JoinCons("", [b], "\n");
    assert "" + "\n" + b == "\n" + b;
    assert a + "\n" + ("\n" + b) == a + "\n\n" + b;
  }

  lemma TwoBlocks(a: string, b: string)
    requires '\n' !in a && '\n' !in b && a != "" && b != "" && Trimmed(a) && Trimmed(b)
    ensures Paragraphs(a + "\n\n" + b) == [a, b]
  {
    var raw := [a, b];
    assert raw[1..] == [b] && raw[..1] == [a] && [a][..0] == [];
    assert Join(raw, "\n\n") == a + "\n\n" + b;
    SplitJoin(raw, "\n\n");
    TrimmedIsKept(a);
    TrimmedIsKept(b);
    assert TrimmedBlocks([a]) == [a];
  }

  lemma TwoChunks(a: string, b: string, o: ChunkOptions)
    requires 0 <= o.overlapChars < o.maxChars == |a| == |b| && Trimmed(b)
    requires forall k :: 0 <= k < |a| ==> !IsSpace(a[k])
    ensures var out := FlushChunk(PackAll([a, b], o), o.overlapChars).out;
      |out| == 2 && |out[1].content| == Bound(o)
  {
    hide TrimSpace, ApproxTokens;
    var first := Pack(Packing([], ""), a, o);
    assert [a, b][..1] == [a] && [a][..0] == [];
    assert PackAll([a], o) == first && first.buf == a + "\n\n" && first.out == [];
    InkOfNewlines();
    TrimSpaceOfBlankSuffix(a, "\n\n");
    TrimmedIsKept(a);
    var flushed := FlushChunk(first, o.overlapChars);
    assert |flushed.out| == 1;
    var second := Packing(flushed.out, flushed.buf + b + "\n\n");
    assert PackAll([a, b], o) == second;
    TrimSpaceOfBlankSuffix(flushed.buf + b, "\n\n");
    TrimmedIsKept(flushed.buf + b);
  }

  /** For every option set some text has a chunk of exactly the bound. */
  lemma BoundIsReached(opt: ChunkOptions)
    ensures exists text, k :: 0 <= k < |Chunks(text, opt)|
              && |Chunks(text, opt)[k].content| == Bound(Effective(opt))
  {
    hide Normalized, Paragraphs, TrimSpace, OversizedPieces;
    var o := Effective(opt);
    var a, b := Run('a', o.maxChars), Run('b', o.maxChars);
    var text := a + "\n\n" + b;
    TwoLines(a, b);
    NormalIsKept(text);
    TwoBlocks(a, b);
    assert Expanded([a, b], o.maxChars) == [a, b] by {
      assert [a, b][..1] == [a] && [a][..0] == [];
      assert Expanded([a], o.maxChars) == [a];
    }
    TwoChunks(a, b, o);
    assert |Chunks(text, opt)[1].content| == Bound(o);
  }
}
