/**
 * The byte-level comparison behind the "compare" command: the list of differing offsets of two
 * decrypted libraries, the hex context printed around a difference, the runs of consecutive
 * differences and the isolated single-byte changes.
 */
module CompareCommand {
  import opened Wrappers
  import opened Bytes
  import opened Text

  /** One differing offset with the byte found there in each buffer. */
  datatype Difference = Difference(offset: nat, byte1: Byte, byte2: Byte)

  /** The differences at offsets below n, in increasing offset order. */
  function DifferencesBelow(data1: seq<Byte>, data2: seq<Byte>, n: nat): (r: seq<Difference>)
    requires n <= |data1| && n <= |data2|
    ensures |r| <= n
    ensures forall k | 0 <= k < |r| :: r[k].offset < n
  {
    if n == 0 then []
    else
      var prev := DifferencesBelow(data1, data2, n - 1);
      if data1[n - 1] != data2[n - 1] then prev + [Difference(n - 1, data1[n - 1], data2[n - 1])] else prev
  }

  /** The differences over the common length of the two buffers. */
  function Differences(data1: seq<Byte>, data2: seq<Byte>): seq<Difference>
  {
    DifferencesBelow(data1, data2, Min(|data1|, |data2|))
  }

  /** The offsets of a list of differences. */
  function Offsets(ds: seq<Difference>): (r: seq<nat>)
    ensures |r| == |ds|
    ensures forall k | 0 <= k < |ds| :: r[k] == ds[k].offset
  {
    seq(|ds|, k requires 0 <= k < |ds| => ds[k].offset)
  }

  /**
   * The differences below n are exactly the offsets below n where the bytes differ, each with
   * both bytes, in strictly increasing order.
   */
  lemma {:induction false} DifferencesBelowExact(data1: seq<Byte>, data2: seq<Byte>, n: nat)
    requires n <= |data1| && n <= |data2|
    ensures var ds := DifferencesBelow(data1, data2, n);
            && (forall k | 0 <= k < |ds| ::
                  && ds[k].byte1 == data1[ds[k].offset] && ds[k].byte2 == data2[ds[k].offset]
                  && ds[k].byte1 != ds[k].byte2)
            && (forall i | 0 <= i < n :: data1[i] != data2[i] <==> i in Offsets(ds))
            && (forall j, k | 0 <= j < k < |ds| :: ds[j].offset < ds[k].offset)
  {
    if n > 0 {
      DifferencesBelowExact(data1, data2, n - 1);
      var prev := DifferencesBelow(data1, data2, n - 1);
      var ds := DifferencesBelow(data1, data2, n);
      if data1[n - 1] != data2[n - 1] {
        assert Offsets(ds) == Offsets(prev) + [n - 1];
      } else {
        assert n - 1 !in Offsets(prev);
      }
    }
  }

  /** The differences of the two buffers: sound, complete over the common length, and in increasing order. */
  lemma {:induction false} DifferencesExact(data1: seq<Byte>, data2: seq<Byte>)
    ensures var ds := Differences(data1, data2);
            && (forall k | 0 <= k < |ds| ::
                  && ds[k].offset < |data1| && ds[k].offset < |data2|
                  && ds[k].byte1 == data1[ds[k].offset] && ds[k].byte2 == data2[ds[k].offset]
                  && ds[k].byte1 != ds[k].byte2)
            && (forall i | 0 <= i < |data1| && i < |data2| :: data1[i] != data2[i] <==> i in Offsets(ds))
            && (forall j, k | 0 <= j < k < |ds| :: ds[j].offset < ds[k].offset)
  {
    DifferencesBelowExact(data1, data2, Min(|data1|, |data2|));
  }

  /** No differences means the shorter buffer is a prefix of the longer one. */
  lemma {:induction false} NoDifferencesMeansPrefix(data1: seq<Byte>, data2: seq<Byte>)
    requires Differences(data1, data2) == []
    ensures |data1| <= |data2| ==> data1 == data2[..|data1|]
    ensures |data2| <= |data1| ==> data2 == data1[..|data2|]
  {
    DifferencesExact(data1, data2);
    assert forall i | 0 <= i < |data1| && i < |data2| :: data1[i] == data2[i] by {
      forall i | 0 <= i < |data1| && i < |data2| ensures data1[i] == data2[i] {
        assert i !in Offsets([]);
      }
    }
  }

  /** The comparison loop of Execute. */
  method FindDifferences(data1: seq<Byte>, data2: seq<Byte>) returns (differences: seq<Difference>)
    ensures differences == Differences(data1, data2)
  {
    differences := [];
    var minLength := Min(|data1|, |data2|);
    for i := 0 to minLength
      invariant differences == DifferencesBelow(data1, data2, i)
    {
      if data1[i] != data2[i] {
        differences := differences + [Difference(i, data1[i], data2[i])];
      }
    }
  }

  // ---------------------------------------------------------------------------------------
  // The hex context of a difference.

  /** One upper-case hex digit. */
  function HexDigit(d: nat): (c: char)
    requires d < 16
    ensures '0' <= c <= '9' || 'A' <= c <= 'F'
  {
    if d < 10 then ('0' as int + d) as char else ('A' as int + d - 10) as char
  }

  /** The {0:X2} rendering of a byte: two upper-case hex digits. */
  function Hex2(b: Byte): (r: string)
    ensures |r| == 2
    ensures '0' <= r[0] <= '9' || 'A' <= r[0] <= 'F'
    ensures '0' <= r[1] <= '9' || 'A' <= r[1] <= 'F'
  {
    [HexDigit(b / 16), HexDigit(b % 16)]
  }

  /** The bracketed byte is "[XX]", every other one "XX ". */
  function Token(b: Byte, marked: bool): (r: string)
    ensures |r| == if marked then 4 else 3
  {
    if marked then "[" + Hex2(b) + "]" else Hex2(b) + " "
  }

  /** The tokens of the window's bytes from index i on, the byte at `offset` bracketed. */
  function RenderFrom(bytes: seq<Byte>, start: nat, offset: nat, i: nat): string
    decreases |bytes| - i
  {
    if i >= |bytes| then "" else Token(bytes[i], start + i == offset) + RenderFrom(bytes, start, offset, i + 1)
  }

  /** The tokens of the bytes of a window that starts at `start`. */
  function Render(bytes: seq<Byte>, start: nat, offset: nat): string
  {
    RenderFrom(bytes, start, offset, 0)
  }

  /** String.Trim: leading and trailing white space removed. */
  function Trim(s: string): (r: string)
  {
    TrimStart(TrimEnd(s))
  }

  function TrimEnd(s: string): (r: string)
    ensures |r| <= |s| && r == s[..|r|]
    ensures r == "" || !IsWhiteSpace(r[|r| - 1])
  {
    if s == "" || !IsWhiteSpace(s[|s| - 1]) then s else TrimEnd(s[..|s| - 1])
  }

  /** TrimEnd removes only white space. */
  lemma {:induction false} TrimEndDropsBlanks(s: string)
    ensures forall i | |TrimEnd(s)| <= i < |s| :: IsWhiteSpace(s[i])
    decreases |s|
  {
    if s != "" && IsWhiteSpace(s[|s| - 1]) {
      TrimEndDropsBlanks(s[..|s| - 1]);
    }
  }

  function TrimStart(s: string): (r: string)
    ensures |r| <= |s| && r == s[|s| - |r|..]
    ensures s != "" && !IsWhiteSpace(s[0]) ==> r == s
  {
    if s == "" || !IsWhiteSpace(s[0]) then s else TrimStart(s[1..])
  }

  /** GetContext's window: up to `size` bytes either side of the offset, clipped to the buffer. */
  function WindowStart(offset: nat, size: nat): (r: nat)
    ensures r <= offset && offset - r <= size
  {
    Max(0, offset - size)
  }

  function WindowEnd(data: seq<Byte>, offset: nat, size: nat): (r: int)
    ensures r <= |data| && r <= offset + size + 1
    ensures offset < |data| ==> offset < r
  {
    Min(|data|, offset + size + 1)
  }

  /** GetContext's loop: the tokens of the window's bytes, appended one by one. */
  method RenderWindow(bytes: seq<Byte>, start: nat, offset: nat) returns (hex: string)
    ensures hex == Render(bytes, start, offset)
  {
    hex := "";
    for i := 0 to |bytes|
      invariant hex + RenderFrom(bytes, start, offset, i) == Render(bytes, start, offset)
    {
      RenderFromStep(bytes, start, offset, i);
      ghost var prev := hex;
      if start + i == offset {
        hex := hex + ("[" + Hex2(bytes[i]) + "]");
      } else {
        hex := hex + (Hex2(bytes[i]) + " ");
      }
      ConcatAssoc(prev, Token(bytes[i], start + i == offset), RenderFrom(bytes, start, offset, i + 1));
    }
    assert hex + "" == hex;
  }

  /** Rendering from index i: the token of byte i, then the rest. */
  lemma RenderFromStep(bytes: seq<Byte>, start: nat, offset: nat, i: nat)
    requires i < |bytes|
    ensures RenderFrom(bytes, start, offset, i) == Token(bytes[i], start + i == offset) + RenderFrom(bytes, start, offset, i + 1)
  {
  }

  /** String concatenation is associative. */
  lemma ConcatAssoc(a: string, b: string, c: string)
    ensures (a + b) + c == a + (b + c)
  {
  }

  /** The context of an offset: the tokens of the window around it, trimmed. */
  function Context(data: seq<Byte>, offset: nat, contextSize: nat): string
  {
    var start, end := WindowStart(offset, contextSize), WindowEnd(data, offset, contextSize);
    if start <= end then Trim(Render(data[start..end], start, offset)) else ""
  }

  /** GetContext: the window's bytes as hex, the byte at the offset in brackets, trimmed. */
  method GetContext(data: seq<Byte>, offset: nat, contextSize: nat) returns (r: string)
    requires WindowStart(offset, contextSize) <= WindowEnd(data, offset, contextSize)
    ensures r == Context(data, offset, contextSize)
  {
    var start := Max(0, offset - contextSize);
    var end := Min(|data|, offset + contextSize + 1);
    var length := end - start;
    assert start == WindowStart(offset, contextSize) && end == WindowEnd(data, offset, contextSize);
    var bytes := data[start..start + length];
    var hex := RenderWindow(bytes, start, offset);
    assert hex == Render(data[WindowStart(offset, contextSize)..WindowEnd(data, offset, contextSize)], start, offset);
    r := Trim(hex);
  }

  lemma {:induction false} CountCharAppend(a: string, b: string, c: char)
    ensures CountChar(a + b, c) == CountChar(a, c) + CountChar(b, c)
    decreases |a|
  {
    if a == "" {
      assert a + b == b;
    } else {
      assert (a + b)[0] == a[0];
      assert (a + b)[1..] == a[1..] + b;
      CountCharAppend(a[1..], b, c);
    }
  }

  /** A token holds a bracket only when its byte is the marked one. */
  lemma {:induction false} TokenBrackets(b: Byte, marked: bool)
    ensures CountChar(Token(b, marked), '[') == if marked then 1 else 0
  {
    var h := Hex2(b);
    assert CountChar(h, '[') == 0 by {
      assert h[1..][1..] == "";
      assert h[0] != '[' && h[1] != '[';
    }
    if marked {
      assert Token(b, marked) == "[" + h + "]";
      CountCharAppend("[", h, '[');
      CountCharAppend("[" + h, "]", '[');
    } else {
      CountCharAppend(h, " ", '[');
    }
  }

  lemma {:induction false} RenderFromBrackets(bytes: seq<Byte>, start: nat, offset: nat, i: nat)
    requires i <= |bytes|
    ensures CountChar(RenderFrom(bytes, start, offset, i), '[') == if start + i <= offset < start + |bytes| then 1 else 0
    decreases |bytes| - i
  {
    if i < |bytes| {
      RenderFromBrackets(bytes, start, offset, i + 1);
      var t := Token(bytes[i], start + i == offset);
      CountCharAppend(t, RenderFrom(bytes, start, offset, i + 1), '[');
      TokenBrackets(bytes[i], start + i == offset);
    }
  }

  /** The rendering of a window brackets exactly one byte when the offset lies in it, and none otherwise. */
  lemma {:induction false} RenderBrackets(bytes: seq<Byte>, start: nat, offset: nat)
    ensures CountChar(Render(bytes, start, offset), '[') == if start <= offset < start + |bytes| then 1 else 0
  {
    RenderFromBrackets(bytes, start, offset, 0);
  }

  /** From index i up to the offset every token takes three characters, so the marked one sits 3 * (offset - start - i) in. */
  lemma {:induction false} RenderFromMarks(bytes: seq<Byte>, start: nat, offset: nat, i: nat)
    requires start + i <= offset < start + |bytes|
    ensures var k := offset - start;
            var s := RenderFrom(bytes, start, offset, i);
            3 * (k - i) + 4 <= |s| && s[3 * (k - i)..3 * (k - i) + 4] == "[" + Hex2(bytes[k]) + "]"
    decreases offset - start - i
  {
    var k := offset - start;
    var t := Token(bytes[i], start + i == offset);
    var rest := RenderFrom(bytes, start, offset, i + 1);
    var s := RenderFrom(bytes, start, offset, i);
    assert s == t + rest;
    if i < k {
      RenderFromMarks(bytes, start, offset, i + 1);
      assert |t| == 3;
      assert s[3 * (k - i)..3 * (k - i) + 4] == rest[3 * (k - i - 1)..3 * (k - i - 1) + 4];
    } else {
      assert s[..4] == t;
    }
  }

  /** The byte at the offset appears bracketed, as its two hex digits, three characters per earlier byte into the rendering. */
  lemma {:induction false} RenderMarksOffset(bytes: seq<Byte>, start: nat, offset: nat)
    requires start <= offset < start + |bytes|
    ensures var k := offset - start;
            var s := Render(bytes, start, offset);
            3 * k + 4 <= |s| && s[3 * k..3 * k + 4] == "[" + Hex2(bytes[k]) + "]"
  {
    RenderFromMarks(bytes, start, offset, 0);
  }

  /** Trimming keeps every bracket: only spaces are removed. */
  lemma {:induction false} TrimEndKeepsBrackets(s: string)
    ensures CountChar(TrimEnd(s), '[') == CountChar(s, '[')
    decreases |s|
  {
    if s != "" && IsWhiteSpace(s[|s| - 1]) {
      var n := |s| - 1;
      TrimEndKeepsBrackets(s[..n]);
      assert s == s[..n] + [s[n]];
      CountCharAppend(s[..n], [s[n]], '[');
    }
  }

  /** Trimming a string that starts with a non-blank character only drops trailing blanks after its last non-blank one. */
  lemma {:induction false} TrimKeeps(s: string, j: nat)
    requires j < |s| && !IsWhiteSpace(s[0]) && !IsWhiteSpace(s[j])
    ensures Trim(s) == TrimEnd(s)
    ensures j < |Trim(s)| && Trim(s) == s[..|Trim(s)|]
    ensures CountChar(Trim(s), '[') == CountChar(s, '[')
  {
    var e := TrimEnd(s);
    TrimEndKeepsBrackets(s);
    TrimEndDropsBlanks(s);
    assert j < |e|;
    assert e[0] == s[0];
  }

  /** A rendered window starts with a hex digit or a bracket. */
  lemma {:induction false} RenderStart(bytes: seq<Byte>, start: nat, offset: nat)
    requires |bytes| > 0
    ensures !IsWhiteSpace(Render(bytes, start, offset)[0])
  {
    var t := Token(bytes[0], start == offset);
    assert Render(bytes, start, offset) == t + RenderFrom(bytes, start, offset, 1);
    assert t[0] == '[' || t[0] == Hex2(bytes[0])[0];
  }

  /** A context string with exactly one bracket, around byte b, which begins 3 * k characters in. */
  predicate MarksAt(s: string, k: nat, b: Byte)
  {
    && CountChar(s, '[') == 1
    && 3 * k + 4 <= |s|
    && s[3 * k..3 * k + 4] == "[" + Hex2(b) + "]"
  }

  /** Trimming a marked string that starts with a non-blank character keeps the mark where it is. */
  lemma {:induction false} TrimKeepsPiece(s: string, k: nat, b: Byte)
    requires |s| > 0 && !IsWhiteSpace(s[0]) && MarksAt(s, k, b)
    ensures MarksAt(Trim(s), k, b)
  {
    var piece := "[" + Hex2(b) + "]";
    assert s[3 * k + 3] == piece[3] == ']';
    TrimKeeps(s, 3 * k + 3);
    var t := Trim(s);
    assert t[3 * k..3 * k + 4] == s[3 * k..3 * k + 4];
  }

  /** A rendered window, trimmed, holds one bracket, around the byte at the offset. */
  lemma {:induction false} TrimmedRenderMarks(bytes: seq<Byte>, start: nat, offset: nat, b: Byte)
    requires start <= offset < start + |bytes| && bytes[offset - start] == b
    ensures MarksAt(Trim(Render(bytes, start, offset)), offset - start, b)
  {
    var k := offset - start;
    var r := Render(bytes, start, offset);
    RenderBrackets(bytes, start, offset);
    RenderMarksOffset(bytes, start, offset);
    assert MarksAt(r, k, b);
    RenderStart(bytes, start, offset);
    TrimKeepsPiece(r, k, b);
  }

  /**
   * What GetContext returns: exactly one bracketed byte when the offset lies in the buffer, and
   * that byte in hex three characters per earlier window byte into the string.
   */
  lemma {:induction false} ContextMarksOffset(data: seq<Byte>, offset: nat, contextSize: nat)
    requires offset < |data|
    ensures var start := WindowStart(offset, contextSize);
            var bytes := data[start..WindowEnd(data, offset, contextSize)];
            MarksAt(Trim(Render(bytes, start, offset)), offset - start, data[offset])
  {
    var start := WindowStart(offset, contextSize);
    var end := WindowEnd(data, offset, contextSize);
    assert start <= offset < end <= |data|;
    var bytes := data[start..end];
    assert start + |bytes| == end;
    assert bytes[offset - start] == data[offset];
    TrimmedRenderMarks(bytes, start, offset, data[offset]);
  }

  // ---------------------------------------------------------------------------------------
  // Runs of consecutive differing offsets.

  /** A run of consecutive offsets start..end. */
  datatype Run = Run(start: nat, end: nat)

  /** A reported range: its first and last offsets and how many offsets it covers. */
  datatype Range = Range(start: nat, end: nat, count: int)

  /** The maximal runs of consecutive offsets, in list order. */
  function Runs(offsets: seq<nat>): (r: seq<Run>)
    ensures |r| <= |offsets| && (|r| == 0 <==> |offsets| == 0)
    ensures |offsets| > 0 ==> r[|r| - 1].start <= r[|r| - 1].end == offsets[|offsets| - 1]
  {
    if |offsets| == 0 then []
    else
      var prev := Runs(offsets[..|offsets| - 1]);
      var x := offsets[|offsets| - 1];
      if |prev| > 0 && x == prev[|prev| - 1].end + 1 then prev[..|prev| - 1] + [Run(prev[|prev| - 1].start, x)]
      else prev + [Run(x, x)]
  }

  /** The runs of five or more offsets, as AnalyzePatterns lists them. */
  function Report(runs: seq<Run>): (r: seq<Range>)
    ensures |r| <= |runs|
  {
    if |runs| == 0 then []
    else
      var prev := Report(runs[..|runs| - 1]);
      var last := runs[|runs| - 1];
      if last.end - last.start >= 4 then prev + [Range(last.start, last.end, last.end - last.start + 1)] else prev
  }

  /** The offsets a run covers, in increasing order. */
  function Expand(run: Run): (r: seq<nat>)
    ensures |r| == if run.start <= run.end then run.end - run.start + 1 else 0
    decreases run.end
  {
    if run.end < run.start then []
    else if run.end == run.start then [run.start]
    else Expand(Run(run.start, run.end - 1)) + [run.end]
  }

  /** The offsets a list of runs covers, in order. */
  function Flatten(runs: seq<Run>): seq<nat>
  {
    if |runs| == 0 then [] else Flatten(runs[..|runs| - 1]) + Expand(runs[|runs| - 1])
  }

  /** Runs of a list with one more offset: the last run grows when the offset follows it, else a new run starts. */
  lemma {:induction false} RunsSnoc(init: seq<nat>, x: nat)
    ensures var prev := Runs(init);
            Runs(init + [x]) ==
              if |prev| > 0 && x == prev[|prev| - 1].end + 1 then prev[..|prev| - 1] + [Run(prev[|prev| - 1].start, x)]
              else prev + [Run(x, x)]
  {
    assert (init + [x])[..|init|] == init;
  }

  lemma {:induction false} FlattenSnoc(runs: seq<Run>, last: Run)
    ensures Flatten(runs + [last]) == Flatten(runs) + Expand(last)
  {
    assert (runs + [last])[..|runs|] == runs;
  }

  /** Growing the last run by one offset appends that offset to the flattening. */
  lemma {:induction false} FlattenGrow(prev: seq<Run>, x: nat)
    requires |prev| > 0 && prev[|prev| - 1].start <= prev[|prev| - 1].end
    requires x == prev[|prev| - 1].end + 1
    ensures var last := prev[|prev| - 1];
            Flatten(prev[..|prev| - 1] + [Run(last.start, x)]) == Flatten(prev) + [x]
  {
    var last := prev[|prev| - 1];
    var body := prev[..|prev| - 1];
    assert prev == body + [last];
    FlattenSnoc(body, last);
    FlattenSnoc(body, Run(last.start, x));
    assert Expand(Run(last.start, x)) == Expand(last) + [x];
    var f := Flatten(body);
    var e := Expand(last);
    assert f + (e + [x]) == (f + e) + [x];
  }

  /** Read one after the other, the runs give the offsets back. */
  lemma {:induction false} RunsFlatten(offsets: seq<nat>)
    ensures Flatten(Runs(offsets)) == offsets
    decreases |offsets|
  {
    if |offsets| > 0 {
      var init := offsets[..|offsets| - 1];
      var x := offsets[|offsets| - 1];
      assert offsets == init + [x];
      RunsFlatten(init);
      RunsSnoc(init, x);
      var prev := Runs(init);
      if |prev| > 0 && x == prev[|prev| - 1].end + 1 {
        FlattenGrow(prev, x);
      } else {
        FlattenSnoc(prev, Run(x, x));
        assert Expand(Run(x, x)) == [x];
      }
    }
  }

  /** No run could be extended by the start of the next one. */
  predicate Maximal(r: seq<Run>)
  {
    forall k | 0 <= k < |r| - 1 :: r[k + 1].start != r[k].end + 1
  }

  lemma {:induction false} MaximalGrow(prev: seq<Run>, x: nat)
    requires Maximal(prev) && |prev| > 0
    ensures Maximal(prev[..|prev| - 1] + [Run(prev[|prev| - 1].start, x)])
  {
    var r := prev[..|prev| - 1] + [Run(prev[|prev| - 1].start, x)];
    forall k | 0 <= k < |r| - 1 ensures r[k + 1].start != r[k].end + 1 {
      assert r[k] == prev[k];
      assert r[k + 1].start == prev[k + 1].start;
    }
  }

  lemma {:induction false} MaximalAppend(prev: seq<Run>, x: nat)
    requires Maximal(prev)
    requires |prev| > 0 ==> x != prev[|prev| - 1].end + 1
    ensures Maximal(prev + [Run(x, x)])
  {
    var r := prev + [Run(x, x)];
    forall k | 0 <= k < |r| - 1 ensures r[k + 1].start != r[k].end + 1 {
      assert r[k] == prev[k];
    }
  }

  lemma {:induction false} RunsMaximal(offsets: seq<nat>)
    ensures Maximal(Runs(offsets))
    decreases |offsets|
  {
    if |offsets| > 0 {
      var init := offsets[..|offsets| - 1];
      var x := offsets[|offsets| - 1];
      RunsMaximal(init);
      var prev := Runs(init);
      if |prev| > 0 && x == prev[|prev| - 1].end + 1 {
        MaximalGrow(prev, x);
      } else {
        MaximalAppend(prev, x);
      }
    }
  }

  /** The runs split the offsets into maximal consecutive pieces. */
  lemma {:induction false} RunsPartition(offsets: seq<nat>)
    ensures Flatten(Runs(offsets)) == offsets
    ensures Maximal(Runs(offsets))
  {
    RunsFlatten(offsets);
    RunsMaximal(offsets);
  }

  /** Consecutive runs leave at least one offset out between them. */
  predicate Separated(r: seq<Run>)
  {
    forall k | 0 <= k < |r| - 1 :: r[k].end + 1 < r[k + 1].start
  }

  lemma {:induction false} SeparatedGrow(prev: seq<Run>, x: nat)
    requires Separated(prev) && |prev| > 0
    ensures Separated(prev[..|prev| - 1] + [Run(prev[|prev| - 1].start, x)])
  {
    var r := prev[..|prev| - 1] + [Run(prev[|prev| - 1].start, x)];
    forall k | 0 <= k < |r| - 1 ensures r[k].end + 1 < r[k + 1].start {
      assert r[k] == prev[k];
      assert r[k + 1].start == prev[k + 1].start;
    }
  }

  lemma {:induction false} SeparatedAppend(prev: seq<Run>, x: nat)
    requires Separated(prev)
    requires |prev| > 0 ==> prev[|prev| - 1].end + 1 < x
    ensures Separated(prev + [Run(x, x)])
  {
    var r := prev + [Run(x, x)];
    forall k | 0 <= k < |r| - 1 ensures r[k].end + 1 < r[k + 1].start {
      assert r[k] == prev[k];
    }
  }

  /** With strictly increasing offsets the runs are disjoint, increasing and separated by at least one offset. */
  lemma {:induction false} RunsSeparated(offsets: seq<nat>)
    requires forall j, k | 0 <= j < k < |offsets| :: offsets[j] < offsets[k]
    ensures Separated(Runs(offsets))
    decreases |offsets|
  {
    if |offsets| > 0 {
      var init := offsets[..|offsets| - 1];
      var x := offsets[|offsets| - 1];
      RunsSeparated(init);
      var prev := Runs(init);
      if |prev| > 0 && x == prev[|prev| - 1].end + 1 {
        SeparatedGrow(prev, x);
      } else {
        if |prev| > 0 {
          assert prev[|prev| - 1].end == init[|init| - 1] < x;
        }
        SeparatedAppend(prev, x);
      }
    }
  }

  /** Every reported range counts the offsets of a maximal run of at least five. */
  lemma {:induction false} ReportedRanges(runs: seq<Run>)
    ensures forall k | 0 <= k < |Report(runs)| ::
              var g := Report(runs)[k];
              g.count >= 5 && g.count == g.end - g.start + 1 && Run(g.start, g.end) in runs
    decreases |runs|
  {
    if |runs| > 0 {
      var init := runs[..|runs| - 1];
      ReportedRanges(init);
      assert forall g | g in init :: g in runs;
    }
  }

  /** Reporting one more run appends its range when it covers five offsets or more. */
  lemma {:induction false} ReportSnoc(body: seq<Run>, last: Run)
    ensures Report(body + [last]) == Report(body) +
              (if last.end - last.start >= 4 then [Range(last.start, last.end, last.end - last.start + 1)] else [])
  {
    assert (body + [last])[..|body|] == body;
  }

  lemma {:induction false} ReportLast(runs: seq<Run>, ranges: seq<Range>, rangeStart: nat, rangeEnd: nat)
    requires |runs| > 0 && ranges == Report(runs[..|runs| - 1]) && runs[|runs| - 1] == Run(rangeStart, rangeEnd)
    ensures Report(runs) ==
              ranges + if rangeEnd - rangeStart >= 4 then [Range(rangeStart, rangeEnd, rangeEnd - rangeStart + 1)] else []
  {
  }

  /** The loop state of AnalyzeRanges after reading `seen`: the open range is the last run, the closed ones are reported. */
  predicate RangeState(seen: seq<nat>, rangeStart: int, rangeEnd: int, ranges: seq<Range>)
  {
    var runs := Runs(seen);
    if |seen| == 0 then rangeStart == -1 && ranges == []
    else runs[|runs| - 1].start == rangeStart && runs[|runs| - 1].end == rangeEnd && ranges == Report(runs[..|runs| - 1])
  }

  /** The first offset opens a range of its own. */
  lemma {:induction false} RangeOpen(seen: seq<nat>, rangeStart: int, rangeEnd: int, ranges: seq<Range>, x: nat)
    requires RangeState(seen, rangeStart, rangeEnd, ranges) && rangeStart == -1
    ensures RangeState(seen + [x], x, x, ranges)
  {
    assert seen == [];
    RunsSnoc(seen, x);
  }

  /** Reading an offset that follows the open range grows it. */
  lemma {:induction false} RangeGrow(seen: seq<nat>, rangeStart: int, rangeEnd: int, ranges: seq<Range>, x: nat)
    requires |seen| > 0 && RangeState(seen, rangeStart, rangeEnd, ranges) && x == rangeEnd + 1
    ensures RangeState(seen + [x], rangeStart, x, ranges)
  {
    RunsSnoc(seen, x);
  }

  /** Reading any other offset closes the open range, reporting it when it covers five offsets or more. */
  lemma {:induction false} RangeClose(seen: seq<nat>, rangeStart: int, rangeEnd: int, ranges: seq<Range>, x: nat)
    requires |seen| > 0 && RangeState(seen, rangeStart, rangeEnd, ranges) && x != rangeEnd + 1
    ensures RangeState(seen + [x], x, x,
              ranges + if rangeEnd - rangeStart >= 4 then [Range(rangeStart, rangeEnd, rangeEnd - rangeStart + 1)] else [])
  {
    RunsSnoc(seen, x);
    var runs := Runs(seen);
    var next := Runs(seen + [x]);
    assert next == runs + [Run(x, x)];
    assert runs == runs[..|runs| - 1] + [runs[|runs| - 1]];
    ReportSnoc(runs[..|runs| - 1], runs[|runs| - 1]);
  }

  /** After the last offset, the open range is reported like the closed ones. */
  lemma {:induction false} RangeFinish(seen: seq<nat>, rangeStart: int, rangeEnd: int, ranges: seq<Range>)
    requires |seen| > 0 && RangeState(seen, rangeStart, rangeEnd, ranges)
    ensures Report(Runs(seen)) ==
              ranges + if rangeEnd - rangeStart >= 4 then [Range(rangeStart, rangeEnd, rangeEnd - rangeStart + 1)] else []
  {
    var runs := Runs(seen);
    ReportLast(runs, ranges, rangeStart, rangeEnd);
  }

  /** The range detection loop of AnalyzePatterns. */
  method AnalyzeRanges(differences: seq<Difference>) returns (ranges: seq<Range>)
    ensures ranges == Report(Runs(Offsets(differences)))
  {
    ranges := [];
    var rangeStart: int := -1;
    var rangeEnd: int := -1;
    ghost var offsets := Offsets(differences);
    ghost var seen: seq<nat> := [];
    for i := 0 to |differences|
      invariant seen == offsets[..i]
      invariant RangeState(seen, rangeStart, rangeEnd, ranges)
    {
      var offset := differences[i].offset;
      assert offsets[..i + 1] == seen + [offset];
      if rangeStart == -1 {
        RangeOpen(seen, rangeStart, rangeEnd, ranges, offset);
        rangeStart := offset;
        rangeEnd := offset;
      } else if offset == rangeEnd + 1 {
        RangeGrow(seen, rangeStart, rangeEnd, ranges, offset);
        rangeEnd := offset;
      } else {
        RangeClose(seen, rangeStart, rangeEnd, ranges, offset);
        if rangeEnd - rangeStart >= 4 {
          ranges := ranges + [Range(rangeStart, rangeEnd, rangeEnd - rangeStart + 1)];
        }
        rangeStart := offset;
        rangeEnd := offset;
      }
      seen := seen + [offset];
    }
    assert offsets[..|differences|] == offsets;
    if rangeStart != -1 {
      RangeFinish(seen, rangeStart, rangeEnd, ranges);
      if rangeEnd - rangeStart >= 4 {
        ranges := ranges + [Range(rangeStart, rangeEnd, rangeEnd - rangeStart + 1)];
      }
    }
  }

  // ---------------------------------------------------------------------------------------
  // Isolated single-byte changes.

  /** A list of differences all inside the common length of the two buffers. */
  predicate WithinBoth(ds: seq<Difference>, data1: seq<Byte>, data2: seq<Byte>)
  {
    forall k | 0 <= k < |ds| :: ds[k].offset < |data1| && ds[k].offset < |data2|
  }

  /**
   * The filter as written: the right-hand edge test looks at data1's length only, so when data2
   * is shorter its byte after the offset is read out of range (None: IndexOutOfRangeException).
   */
  function IsIsolatedAsWritten(d: Difference, data1: seq<Byte>, data2: seq<Byte>): Option<bool>
    requires d.offset < |data1| && d.offset < |data2|
  {
    var o := d.offset;
    var prevSame := o == 0 || data1[o - 1] == data2[o - 1];
    if o == |data1| - 1 then Some(prevSame)
    else if o + 1 >= |data2| then None
    else Some(prevSame && data1[o + 1] == data2[o + 1])
  }

  function IsolatedAsWritten(ds: seq<Difference>, data1: seq<Byte>, data2: seq<Byte>): Option<seq<Difference>>
    requires WithinBoth(ds, data1, data2)
  {
    if |ds| == 0 then Some([])
    else
      match IsolatedAsWritten(ds[..|ds| - 1], data1, data2)
      case None => None
      case Some(prev) =>
        match IsIsolatedAsWritten(ds[|ds| - 1], data1, data2)
        case None => None
        case Some(keep) => Some(if keep then prev + [ds[|ds| - 1]] else prev)
  }

  /** The intended test: both neighbours inside the compared range are equal in the two buffers. */
  predicate IsIsolated(d: Difference, data1: seq<Byte>, data2: seq<Byte>)
    requires d.offset < |data1| && d.offset < |data2|
  {
    var o := d.offset;
    && (o == 0 || data1[o - 1] == data2[o - 1])
    && (o + 1 >= Min(|data1|, |data2|) || data1[o + 1] == data2[o + 1])
  }

  function IsolatedChanges(ds: seq<Difference>, data1: seq<Byte>, data2: seq<Byte>): (r: seq<Difference>)
    requires WithinBoth(ds, data1, data2)
    ensures |r| <= |ds|
    ensures forall d | d in r :: d in ds && IsIsolated(d, data1, data2)
    ensures forall d | d in ds && IsIsolated(d, data1, data2) :: d in r
  {
    if |ds| == 0 then []
    else
      var prev := IsolatedChanges(ds[..|ds| - 1], data1, data2);
      var d := ds[|ds| - 1];
      assert forall e | e in ds[..|ds| - 1] :: e in ds;
      assert forall e | e in ds :: e in ds[..|ds| - 1] || e == d;
      if IsIsolated(d, data1, data2) then prev + [d] else prev
  }

  /** The filter as written agrees with the intended one whenever it does not throw. */
  lemma {:induction false} AsWrittenAgrees(ds: seq<Difference>, data1: seq<Byte>, data2: seq<Byte>)
    requires WithinBoth(ds, data1, data2)
    ensures IsolatedAsWritten(ds, data1, data2).Some? ==>
              IsolatedAsWritten(ds, data1, data2).value == IsolatedChanges(ds, data1, data2)
    decreases |ds|
  {
    if |ds| > 0 {
      AsWrittenAgrees(ds[..|ds| - 1], data1, data2);
    }
  }

  /**
   * On the differences of two buffers, the filter as written throws exactly when the second
   * buffer is shorter and its last byte differs from the first buffer's byte at that offset.
   */
  lemma {:induction false} AsWrittenThrows(data1: seq<Byte>, data2: seq<Byte>)
    ensures var ds := Differences(data1, data2);
            WithinBoth(ds, data1, data2) &&
            (IsolatedAsWritten(ds, data1, data2).None? <==>
               0 < |data2| < |data1| && data1[|data2| - 1] != data2[|data2| - 1])
  {
    DifferencesExact(data1, data2);
    var ds := Differences(data1, data2);
    AsWrittenThrowsOn(ds, data1, data2);
    if 0 < |data2| < |data1| && data1[|data2| - 1] != data2[|data2| - 1] {
      assert |data2| - 1 in Offsets(ds);
    }
  }

  lemma {:induction false} AsWrittenThrowsOn(ds: seq<Difference>, data1: seq<Byte>, data2: seq<Byte>)
    requires WithinBoth(ds, data1, data2)
    ensures IsolatedAsWritten(ds, data1, data2).None? <==>
              |data2| < |data1| && |data2| - 1 in Offsets(ds)
    decreases |ds|
  {
    if |ds| > 0 {
      var init := ds[..|ds| - 1];
      AsWrittenThrowsOn(init, data1, data2);
      assert Offsets(ds) == Offsets(init) + [ds[|ds| - 1].offset];
    }
  }

  /** The smallest input that makes the filter as written throw. */
  lemma {:induction false} AsWrittenCounterexample()
    ensures IsolatedAsWritten(Differences([0, 1, 0], [0, 2]), [0, 1, 0], [0, 2]) == None
  {
    AsWrittenThrows([0, 1, 0], [0, 2]);
  }

  /** An offset is listed exactly when some difference carries it. */
  lemma {:induction false} InOffsets(ds: seq<Difference>, i: nat)
    ensures i in Offsets(ds) <==> exists d | d in ds :: d.offset == i
  {
    if i in Offsets(ds) {
      var k :| 0 <= k < |ds| && Offsets(ds)[k] == i;
      assert ds[k] in ds;
    }
    if exists d | d in ds :: d.offset == i {
      var d :| d in ds && d.offset == i;
      var k :| 0 <= k < |ds| && ds[k] == d;
      assert Offsets(ds)[k] == i;
    }
  }

  /** The difference a list of differences of the two buffers holds at an offset is the one the buffers give. */
  lemma {:induction false} DifferenceAt(data1: seq<Byte>, data2: seq<Byte>, d: Difference)
    requires d in Differences(data1, data2)
    ensures d.offset < |data1| && d.offset < |data2|
    ensures d == Difference(d.offset, data1[d.offset], data2[d.offset]) && data1[d.offset] != data2[d.offset]
  {
    DifferencesExact(data1, data2);
    var ds := Differences(data1, data2);
    var k :| 0 <= k < |ds| && ds[k] == d;
  }

  lemma {:induction false} DifferencesWithin(data1: seq<Byte>, data2: seq<Byte>)
    ensures WithinBoth(Differences(data1, data2), data1, data2)
  {
    DifferencesExact(data1, data2);
  }

  /** On the differences of two buffers, the intended filter keeps exactly the differences whose in-range neighbours agree. */
  lemma {:induction false} IsolatedChangesExact(data1: seq<Byte>, data2: seq<Byte>, i: nat)
    requires i < |data1| && i < |data2|
    ensures var ds := Differences(data1, data2);
            WithinBoth(ds, data1, data2) &&
            (i in Offsets(IsolatedChanges(ds, data1, data2)) <==>
               && data1[i] != data2[i]
               && (i == 0 || data1[i - 1] == data2[i - 1])
               && (i + 1 == Min(|data1|, |data2|) || data1[i + 1] == data2[i + 1]))
  {
    DifferencesWithin(data1, data2);
    var ds := Differences(data1, data2);
    var iso := IsolatedChanges(ds, data1, data2);
    var d := Difference(i, data1[i], data2[i]);
    var neighbours := (i == 0 || data1[i - 1] == data2[i - 1])
                      && (i + 1 == Min(|data1|, |data2|) || data1[i + 1] == data2[i + 1]);
    assert IsIsolated(d, data1, data2) == neighbours;
    InOffsets(iso, i);
    if i in Offsets(iso) {
      var e :| e in iso && e.offset == i;
      DifferenceAt(data1, data2, e);
      assert e == d;
      assert data1[i] != data2[i] && neighbours;
    }
    if data1[i] != data2[i] && neighbours {
      assert i in Offsets(ds) by {
        DifferencesExact(data1, data2);
      }
      InOffsets(ds, i);
      var e :| e in ds && e.offset == i;
      DifferenceAt(data1, data2, e);
      assert e == d && e in iso;
      assert i in Offsets(iso);
    }
  }

  /** What Execute shows after reading both files. */
  datatype CompareReport =
    | Identical(differenceCount: nat)
    | Differ(differences: seq<Difference>, rows: seq<(Difference, string, string)>, ranges: seq<Range>, isolated: seq<Difference>)

  /**
   * The body of Execute once both files are decrypted: the differences, a context row for each
   * of the first hundred, the ranges and the isolated changes, taken with the corrected
   * isolated-change filter. With that filter nothing throws and the exit code is 0 in both
   * outcomes, whatever the lengths; the filter as written makes the source exit with 1 on the
   * inputs ExitCodeAsWritten names.
   */
  method Execute(data1: seq<Byte>, data2: seq<Byte>) returns (exitCode: int, report: CompareReport)
    ensures exitCode == 0
    ensures report.Identical? <==> Differences(data1, data2) == []
    ensures report.Differ? ==>
              && report.differences == Differences(data1, data2)
              && |report.rows| == Min(100, |report.differences|)
              && report.rows == Rows(data1, data2, report.differences[..Min(100, |report.differences|)])
              && report.ranges == Report(Runs(Offsets(report.differences)))
              && report.isolated == IsolatedChanges(report.differences, data1, data2)
  {
    var differences := FindDifferences(data1, data2);
    DifferencesExact(data1, data2);
    if |differences| == 0 {
      return 0, Identical(0);
    }
    var rows := ContextRows(data1, data2, differences[..Min(100, |differences|)]);
    var ranges := AnalyzeRanges(differences);
    var isolated := IsolatedChanges(differences, data1, data2);
    return 0, Differ(differences, rows, ranges, isolated);
  }

  /** One row of the differences table: the difference and the hex context of each buffer around it. */
  function Row(data1: seq<Byte>, data2: seq<Byte>, d: Difference): (Difference, string, string)
  {
    (d, Context(data1, d.offset, 16), Context(data2, d.offset, 16))
  }

  /** The table's rows, one per difference shown, in order. */
  function Rows(data1: seq<Byte>, data2: seq<Byte>, ds: seq<Difference>): (r: seq<(Difference, string, string)>)
    ensures |r| == |ds|
  {
    if ds == [] then [] else Rows(data1, data2, ds[..|ds| - 1]) + [Row(data1, data2, ds[|ds| - 1])]
  }

  /** Row k of the table is the row of difference k. */
  lemma {:induction false} RowsAt(data1: seq<Byte>, data2: seq<Byte>, ds: seq<Difference>, k: nat)
    requires k < |ds|
    ensures Rows(data1, data2, ds)[k] == Row(data1, data2, ds[k])
    decreases |ds|
  {
    var prefix := ds[..|ds| - 1];
    var last := Row(data1, data2, ds[|ds| - 1]);
    assert Rows(data1, data2, ds) == Rows(data1, data2, prefix) + [last];
    if k < |ds| - 1 {
      RowsAt(data1, data2, prefix, k);
      assert prefix[k] == ds[k];
    }
  }

  /** The loop that fills the differences table, one GetContext pair per difference shown. */
  method ContextRows(data1: seq<Byte>, data2: seq<Byte>, ds: seq<Difference>) returns (rows: seq<(Difference, string, string)>)
    requires forall k | 0 <= k < |ds| :: ds[k].offset < |data1| && ds[k].offset < |data2|
    ensures rows == Rows(data1, data2, ds)
  {
    assert ds[..|ds|] == ds;
    rows := [];
    for k := 0 to |ds|
      invariant rows == Rows(data1, data2, ds[..k])
    {
      var row := ContextRow(data1, data2, ds[k]);
      RowsStep(data1, data2, ds, k);
      rows := rows + [row];
    }
  }

  /** One more difference adds its row at the end of the table. */
  lemma {:induction false} RowsStep(data1: seq<Byte>, data2: seq<Byte>, ds: seq<Difference>, k: nat)
    requires k < |ds|
    ensures Rows(data1, data2, ds[..k + 1]) == Rows(data1, data2, ds[..k]) + [Row(data1, data2, ds[k])]
  {
    assert ds[..k + 1][..k] == ds[..k];
  }

  /** The two GetContext calls of one table row. */
  method ContextRow(data1: seq<Byte>, data2: seq<Byte>, d: Difference) returns (row: (Difference, string, string))
    requires d.offset < |data1| && d.offset < |data2|
    ensures row == Row(data1, data2, d)
  {
    var ctx1 := GetContext(data1, d.offset, 16);
    var ctx2 := GetContext(data2, d.offset, 16);
    row := (d, ctx1, ctx2);
  }

  /** Execute as written: the isolated-change filter can throw, and Execute then exits with 1. */
  function ExecuteExitCodeAsWritten(data1: seq<Byte>, data2: seq<Byte>): int
  {
    var ds := Differences(data1, data2);
    DifferencesExact(data1, data2);
    if ds == [] then 0
    else if IsolatedAsWritten(ds, data1, data2).None? then 1
    else 0
  }

  /**
   * Execute as written exits with 1 exactly when the second buffer is shorter, not empty, and
   * differs from the first at its last byte; on every other input it exits with 0, like the
   * corrected Execute.
   */
  lemma {:induction false} ExitCodeAsWritten(data1: seq<Byte>, data2: seq<Byte>)
    ensures ExecuteExitCodeAsWritten(data1, data2) == 1 <==>
              0 < |data2| < |data1| && data1[|data2| - 1] != data2[|data2| - 1]
    ensures ExecuteExitCodeAsWritten(data1, data2) == 0 || ExecuteExitCodeAsWritten(data1, data2) == 1
  {
    AsWrittenThrows(data1, data2);
  }

  /** Buffers whose common part is equal are reported identical with exit code 0, even when their lengths differ; as written, [0, 1, 0] against [0, 2] exits with 1. */
  lemma {:induction false} ExitCodes()
    ensures ExecuteExitCodeAsWritten([1, 2, 3], [1, 2]) == 0 && Differences([1, 2, 3], [1, 2]) == []
    ensures ExecuteExitCodeAsWritten([0, 1, 0], [0, 2]) == 1
  {
    assert DifferencesBelow([1, 2, 3], [1, 2], 1) == [];
    assert Differences([1, 2, 3], [1, 2]) == DifferencesBelow([1, 2, 3], [1, 2], 2) == [];
    assert DifferencesBelow([0, 1, 0], [0, 2], 1) == [];
    var ds := Differences([0, 1, 0], [0, 2]);
    assert ds == DifferencesBelow([0, 1, 0], [0, 2], 2) == [Difference(1, 1, 2)];
    assert IsolatedAsWritten(ds[..0], [0, 1, 0], [0, 2]) == Some([]);
    assert IsIsolatedAsWritten(Difference(1, 1, 2), [0, 1, 0], [0, 2]) == None;
  }
}
