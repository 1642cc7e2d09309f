/** Splitting the trace into lines: split_string in utils.h, and the reader's loop in multithreaded_sensor.h that reads
    the stream in pieces and carries the rest of the last line over to the next piece. */
module LineSplit {
  import opened Prelude

  /** str.find("\n", from); the length of s stands for npos. */
  function Find(s: string, from: nat): (pos: nat)
    ensures from <= |s| ==> from <= pos <= |s|
    ensures from <= |s| ==> (forall i :: from <= i < pos ==> s[i] != '\n') && (pos < |s| ==> s[pos] == '\n')
    decreases if from < |s| then |s| - from else 0
  {
    if from >= |s| then |s| else if s[from] == '\n' then from else Find(s, from + 1)
  }

  // ----- What splitting means -----

  /** The lines of a text that are ended by a newline. */
  function Lines(s: string): seq<string>
    decreases |s|
  {
    var pos := Find(s, 0);
    if pos < |s| then [s[..pos]] + Lines(s[pos + 1..]) else []
  }

  /** What is behind the last newline. */
  function Residue(s: string): (r: string)
    ensures |r| <= |s|
    decreases |s|
  {
    var pos := Find(s, 0);
    if pos < |s| then Residue(s[pos + 1..]) else s
  }

  /** The characters in some lines, with their newlines. */
  function Size(lines: seq<string>): nat {
    if lines == [] then 0 else |lines[0]| + 1 + Size(lines[1..])
  }

  // ----- split_string -----

  /** size() - 1 on an unsigned type */
  function UnsignedPred(size: nat): nat { if size == 0 then 0xFFFF_FFFF_FFFF_FFFF else size - 1 }

  /** What split_string carries over of a residue: not a single character. */
  function Carried(residue: string): string { if |residue| == 1 then [] else residue }

  /** Splits `str`, cuts its residue off and appends it to `last`, unless the residue is a single character. */
  method SplitString(str: string, last: string) returns (strings: seq<string>, rest: string, carry: string)
    requires |str| <= 0xFFFF_FFFF_FFFF_FFFF
    ensures strings == Lines(str) && carry == last + Carried(Residue(str))
    ensures rest == if |Residue(str)| == 1 then str else str[..|str| - |Residue(str)|]
  {
    hide Lines, Residue;
    strings, rest, carry := [], str, last;
    var prev, pos := 0, Find(str, 0);
    assert str[0..] == str && [] + Lines(str) == Lines(str) && last + [] == last;
    while pos < |str|
      invariant prev <= |str| && pos == Find(str, prev)
      invariant Lines(str) == strings + Lines(str[prev..])
      invariant Residue(str) == Residue(str[prev..])
      decreases |str| - prev
    {
      LineFound(str, prev, pos);
      Associate(strings, [str[prev..pos]], Lines(str[pos + 1..]));
      strings := strings + [str[prev..pos]];
      prev := pos + 1;
      pos := Find(str, prev);
    }
    NoLineFound(str, prev);
    if prev < UnsignedPred(|str|) {
      carry := carry + str[prev..];
      rest := str[..prev];
    }
  }

  lemma LineFound(str: string, prev: nat, pos: nat)
    requires prev <= |str| && pos == Find(str, prev) < |str|
    ensures Lines(str[prev..]) == [str[prev..pos]] + Lines(str[pos + 1..])
    ensures Residue(str[prev..]) == Residue(str[pos + 1..])
  {
    FindIn(str, prev);
    assert str[prev..][pos - prev + 1..] == str[pos + 1..] && str[prev..][..pos - prev] == str[prev..pos];
  }

  lemma NoLineFound(str: string, prev: nat)
    requires prev <= |str| && Find(str, prev) == |str|
    ensures Lines(str[prev..]) == [] && Residue(str[prev..]) == str[prev..]
  {
    FindIn(str, prev);
  }

  lemma FindIn(s: string, from: nat)
    requires from <= |s|
    ensures Find(s[from..], 0) == Find(s, from) - from
  {
    FindUnique(s[from..], 0, Find(s, from) - from);
  }

  lemma {:induction false} FindUnique(s: string, from: nat, pos: nat)
    requires from <= pos <= |s| && (forall i :: from <= i < pos ==> s[i] != '\n') && (pos < |s| ==> s[pos] == '\n')
    ensures Find(s, from) == pos
    decreases |s| - from
  {
    if from < pos { FindUnique(s, from + 1, pos); }
  }

  // ----- The reader -----

  function Joined(chunks: seq<string>): string {
    if chunks == [] then [] else chunks[0] + Joined(chunks[1..])
  }

  function Flat(bulks: seq<seq<string>>): seq<string> {
    if bulks == [] then [] else Flat(bulks[..|bulks| - 1]) + bulks[|bulks| - 1]
  }

  /** What the reader splits when it has read the first of some chunks; at the end of the file it adds a newline. */
  function Text(chunks: seq<string>, carry: string): string
    requires chunks != []
  {
    carry + chunks[0] + if |chunks| == 1 then "\n" else ""
  }

  /** The lines the reader makes of some chunks, the last of which ends at the end of the file. */
  function ReadLines(chunks: seq<string>, carry: string): seq<string> {
    if chunks == [] then []
    else Lines(Text(chunks, carry)) + ReadLines(chunks[1..], Carried(Residue(Text(chunks, carry))))
  }

  method ReadStream(chunks: seq<string>) returns (bulks: seq<seq<string>>)
    requires chunks != [] && |Joined(chunks)| < 0xFFFF_FFFF_FFFF_FFFF
    ensures |bulks| == |chunks| && Flat(bulks) == ReadLines(chunks, [])
  {
    bulks := [];
    var lastLine: string := [];
    var i := 0;
    assert chunks[0..] == chunks && Flat([]) + ReadLines(chunks, []) == ReadLines(chunks, []);
    while i < |chunks|
      invariant i <= |chunks| && |bulks| == i
      invariant |lastLine| + |Joined(chunks[i..])| <= |Joined(chunks)|
      invariant Flat(bulks) + ReadLines(chunks[i..], lastLine) == ReadLines(chunks, [])
    {
      var strLine, ends := lastLine + chunks[i], i + 1 == |chunks|;
      if ends { strLine := strLine + "\n"; }
      assert chunks[i..][1..] == chunks[i + 1..] && strLine == Text(chunks[i..], lastLine);
      SizeOfLines(strLine);
      lastLine := [];
      var lines, rest;
      lines, rest, lastLine := SplitString(strLine, lastLine);
      assert lastLine == Carried(Residue(strLine));
      assert (bulks + [lines])[..i] == bulks;
      Associate(Flat(bulks), lines, ReadLines(chunks[i + 1..], lastLine));
      if ends { EndsClean(lastLine, strLine[..|strLine| - 1]); assert strLine == strLine[..|strLine| - 1] + "\n"; }
      bulks := bulks + [lines];
      i := i + 1;
    }
    assert chunks[i..] == [] && Flat(bulks) + [] == Flat(bulks);
  }

  lemma EndsClean(carry: string, s: string)
    requires carry == Carried(Residue(s + "\n"))
    ensures carry == []
  {
    NoResidue(s);
  }

  // ----- Splitting piece by piece -----

  lemma {:induction false} SizeOfLines(s: string)
    ensures Size(Lines(s)) + |Residue(s)| == |s|
    decreases |s|
  {
    var pos := Find(s, 0);
    if pos < |s| {
      SizeOfLines(s[pos + 1..]);
      assert Lines(s)[1..] == Lines(s[pos + 1..]);
    }
  }

  lemma {:induction false} SizeOfBoth(a: seq<string>, b: seq<string>)
    ensures Size(a + b) == Size(a) + Size(b)
  {
    if a != [] {
      SizeOfBoth(a[1..], b);
      assert (a + b)[1..] == a[1..] + b;
    } else {
      assert a + b == b;
    }
  }

  /** Splitting a text is splitting its beginning, and then what was left of it together with the rest. */
  lemma {:induction false} SplitTwice(a: string, b: string)
    ensures Lines(a + b) == Lines(a) + Lines(Residue(a) + b) && Residue(a + b) == Residue(Residue(a) + b)
    decreases |a|
  {
    var pos := Find(a, 0);
    if pos < |a| {
      FindUnique(a + b, 0, pos);
      assert (a + b)[pos + 1..] == a[pos + 1..] + b && (a + b)[..pos] == a[..pos];
      SplitTwice(a[pos + 1..], b);
      Associate([a[..pos]], Lines(a[pos + 1..]), Lines(Residue(a) + b));
    } else {
      assert [] + Lines(a + b) == Lines(a + b);
    }
  }

  lemma NoResidue(s: string)
    ensures Residue(s + "\n") == []
  {
    SplitTwice(s, "\n");
    var r := Residue(s);
    ResidueClean(s);
    FindUnique(r + "\n", 0, |r|);
    assert (r + "\n")[|r| + 1..] == [];
  }

  lemma {:induction false} ResidueClean(s: string)
    ensures '\n' !in Residue(s)
    decreases |s|
  {
    var pos := Find(s, 0);
    if pos < |s| { ResidueClean(s[pos + 1..]); }
  }

  // ----- When the cuts make no difference -----

  /** No read but the last leaves a residue of a single character: no cut falls one character after a newline, or one
      character after the beginning of the stream. */
  ghost predicate NoLoneCharacter(chunks: seq<string>) {
    forall i {:trigger chunks[..i]} :: 0 < i < |chunks| ==> |Residue(Joined(chunks[..i]))| != 1
  }

  /** The same, read by read. */
  predicate Safe(chunks: seq<string>, carry: string) {
    |chunks| <= 1 || (|Residue(carry + chunks[0])| != 1 && Safe(chunks[1..], Residue(carry + chunks[0])))
  }

  lemma {:induction false} SafeMeans(chunks: seq<string>, carry: string)
    ensures Safe(chunks, carry) <==> forall i {:trigger chunks[..i]} :: 0 < i < |chunks| ==>
                                       |Residue(carry + Joined(chunks[..i]))| != 1
    decreases chunks
  {
    if |chunks| > 1 {
      var next := Residue(carry + chunks[0]);
      SafeMeans(chunks[1..], next);
      forall i | 0 < i < |chunks|
        ensures Residue(carry + Joined(chunks[..i]))
          == if i == 1 then next else Residue(next + Joined(chunks[1..][..i - 1]))
      {
        assert chunks[..i][1..] == chunks[1..][..i - 1];
        SplitTwice(carry + chunks[0], Joined(chunks[1..][..i - 1]));
        assert carry + Joined(chunks[..i]) == carry + chunks[0] + Joined(chunks[1..][..i - 1]);
        if i == 1 { assert carry + Joined(chunks[..1]) == carry + chunks[0]; }
      }
      if Safe(chunks, carry) {
        forall i {:trigger chunks[..i]} | 0 < i < |chunks| ensures |Residue(carry + Joined(chunks[..i]))| != 1 {}
      } else if |next| == 1 {
        assert |Residue(carry + Joined(chunks[..1]))| == 1;
      } else {
        var j :| 0 < j < |chunks[1..]| && |Residue(next + Joined(chunks[1..][..j]))| == 1;
        assert |Residue(carry + Joined(chunks[..j + 1]))| == 1;
      }
    }
  }

  lemma {:induction false} SafeReads(chunks: seq<string>, carry: string)
    requires chunks != [] && Safe(chunks, carry)
    ensures ReadLines(chunks, carry) == Lines(carry + Joined(chunks) + "\n")
    decreases chunks
  {
    hide Lines, Residue;
    var text := Text(chunks, carry);
    var more := Joined(chunks[1..]) + "\n";
    TextJoined(chunks, carry);
    if |chunks| == 1 {
      assert Lines(text) + [] == Lines(text);
    } else {
      SafeReads(chunks[1..], Residue(text));
      SplitTwice(text, more);
      Associate(Residue(text), Joined(chunks[1..]), "\n");
    }
  }

  lemma TextJoined(chunks: seq<string>, carry: string)
    requires chunks != []
    ensures |chunks| == 1 ==> chunks[1..] == [] && carry + Joined(chunks) + "\n" == Text(chunks, carry)
    ensures |chunks| > 1 ==>
      Text(chunks, carry) == carry + chunks[0] && carry + Joined(chunks) + "\n"
        == Text(chunks, carry) + (Joined(chunks[1..]) + "\n")
  {
    var first, rest := chunks[0], Joined(chunks[1..]);
    assert Joined(chunks) == first + rest;
    hide Joined;
    Associate(carry, first, rest);
    Associate(carry + first, rest, "\n");
    if |chunks| == 1 { OneChunk(first, chunks[1..]); } else { NothingAdded(carry + first); }
  }

  lemma OneChunk(first: string, none: seq<string>)
    requires none == []
    ensures first + Joined(none) == first
  {}

  lemma NothingAdded(s: string)
    ensures s + "" == s
  {}

  /** A character that is not carried over is missing from the lines. */
  lemma {:induction false} UnsafeLoses(chunks: seq<string>, carry: string)
    requires chunks != []
    ensures Size(ReadLines(chunks, carry)) <= |carry| + |Joined(chunks)| + 1
    ensures !Safe(chunks, carry) ==> Size(ReadLines(chunks, carry)) < |carry| + |Joined(chunks)| + 1
    decreases chunks
  {
    var text := Text(chunks, carry);
    var next := Carried(Residue(text));
    SizeOfLines(text);
    SizeOfBoth(Lines(text), ReadLines(chunks[1..], next));
    if |chunks| > 1 {
      assert text == carry + chunks[0];
      UnsafeLoses(chunks[1..], next);
    }
  }

  /** The lines that the reader finds do not depend on how the stream is cut into reads, and are those of the whole
      stream with a newline added at its end, exactly if no read but the last leaves a single character. */
  lemma CutsMakeNoDifference(chunks: seq<string>)
    requires chunks != []
    ensures ReadLines(chunks, []) == Lines(Joined(chunks) + "\n") <==> NoLoneCharacter(chunks)
  {
    SafeMeans(chunks, []);
    assert [] + Joined(chunks) == Joined(chunks);
    forall i {:trigger chunks[..i]} | 0 < i < |chunks| ensures [] + Joined(chunks[..i]) == Joined(chunks[..i]) {}
    if Safe(chunks, []) {
      SafeReads(chunks, []);
    } else {
      UnsafeLoses(chunks, []);
      SizeOfLines(Joined(chunks) + "\n");
      NoResidue(Joined(chunks));
    }
  }

  /** A stream of one line, cut after its first character, comes out without that character. */
  lemma LoneCharacterLost()
    ensures ReadLines(["a", "b"], []) == ["b"] != Lines("ab\n") == ["ab"]
  {
    assert Text(["a", "b"], []) == "a";
    FindUnique("a", 0, 1);
    assert Lines("a") == [] && Residue("a") == "a" && ["a", "b"][1..] == ["b"];
    assert Text(["b"], []) == "b\n";
    FindUnique("b\n", 0, 1);
    assert "b\n"[..1] == "b" && "b\n"[2..] == "" && ["b"][1..] == [];
    FindUnique("", 0, 0);
    FindUnique("ab\n", 0, 2);
    assert "ab\n"[..2] == "ab" && "ab\n"[3..] == "";
  }
}
