/**
  The text of a hex file: what stands around a line, and between its bytes,
  does not matter; lines that do not start with a colon are no records.
 */
module HexTexts {
  import opened Basics
  import opened HexLines
  import opened HexRegions
  import opened HexFiles

  predicate AllBlank(s: string) {
    forall k :: 0 <= k < |s| ==> IsBlank(s[k])
  }

  lemma FirstStripped(c: char, s: string)
    requires IsBlank(c)
    ensures Stripped([c] + s) == Stripped(s)
  {
    assert ([c] + s)[1..] == s;
  }

  lemma {:induction false} LastStripped(s: string, c: char)
    requires IsBlank(c)
    ensures Stripped(s + [c]) == Stripped(s)
    decreases |s|
  {
    if s == "" {
      assert s + [c] == [c];
      FirstStripped(c, "");
    } else if IsBlank(s[0]) {
      assert s == [s[0]] + s[1..] && s + [c] == [s[0]] + (s[1..] + [c]);
      FirstStripped(s[0], s[1..]);
      FirstStripped(s[0], s[1..] + [c]);
      LastStripped(s[1..], c);
    } else {
      assert (s + [c])[..|s|] == s;
    }
  }

  /** White space around a text does not matter. */
  lemma {:induction false} StrippedAround(before: string, s: string, after: string)
    requires AllBlank(before) && AllBlank(after)
    ensures Stripped(before + s + after) == Stripped(s)
    decreases |before| + |after|
  {
    hide Stripped;
    if before != "" {
      assert before + s + after == [before[0]] + (before[1..] + s + after);
      FirstStripped(before[0], before[1..] + s + after);
      StrippedAround(before[1..], s, after);
    } else if after != "" {
      var n := |after| - 1;
      assert before + s + after == (before + s + after[..n]) + [after[n]];
      LastStripped(before + s + after[..n], after[n]);
      StrippedAround(before, s, after[..n]);
    } else {
      assert before + s + after == s;
    }
  }

  /** What a text does: white space around it does not matter, a line that then starts with a colon
      is a record, and any other is passed over. */
  lemma TextMeans(l: Loading, before: string, line: string, after: string)
    requires AllBlank(before) && AllBlank(after)
    requires line == "" || (!IsBlank(line[0]) && !IsBlank(line[|line| - 1]))
    ensures LoadedText(l, before + line + after) ==
      if line != "" && line[0] == ':' then
        var r := FromLine(line);
        if r.Ok? then Loaded(l, r.value) else Err(r.error)
      else Ok(l)
  {
    hide Loaded, FromLine, IsBlank;
    StrippedAround(before, line, after);
    assert Stripped(line) == line;
  }

  /** Ends of lines, and spaces and tabs. */
  predicate IsLayout(s: string) {
    forall k :: 0 <= k < |s| ==> s[k] in " \t\r\n"
  }

  lemma LayoutIsBlank(s: string)
    requires IsLayout(s)
    ensures AllBlank(s)
  {
  }

  /** A line of a file: some layout, a text and some layout. */
  ghost predicate Around(text: string, line: string) {
    exists before, after :: IsLayout(before) && IsLayout(after) && line == before + text + after
  }

  lemma {:induction false} LoadedAround(l: Loading, texts: seq<string>, lines: seq<string>)
    requires |lines| == |texts| && forall k :: 0 <= k < |texts| ==> Around(texts[k], lines[k])
    ensures TextLoaded(l, lines) == TextLoaded(l, texts)
    decreases |texts|
  {
    hide Loaded, FromLine, Stripped, IsLayout;
    if texts != [] {
      var n := |texts| - 1;
      LoadedAround(l, texts[..n], lines[..n]);
      var before, after :| IsLayout(before) && IsLayout(after) && lines[n] == before + texts[n] + after;
      LayoutIsBlank(before);
      LayoutIsBlank(after);
      StrippedAround(before, texts[n], after);
    }
  }

  /** Whatever ends of lines, and spaces around the lines, a saved file has: it is loaded again. */
  lemma SavedFileIsLoaded(rs: seq<Region>, lines: seq<string>)
    requires Normal(rs) && forall k :: 0 <= k < |rs| ==> End(rs[k]) <= 0x1_0000_0000
    requires Saved(rs).Ok? ==> |lines| == |Saved(rs).value|
    requires Saved(rs).Ok? ==> forall k :: 0 <= k < |lines| ==> Around(Saved(rs).value[k], lines[k])
    ensures TextLoaded(Nothing, lines).Ok? && TextLoaded(Nothing, lines).value.regions == rs
  {
    hide Around, Saved, TextLoaded;
    SavedIsLoaded(rs);
    LoadedAround(Nothing, Saved(rs).value, lines);
  }

  lemma SpaceIsSkipped(c: char, s: string)
    requires c in " \t\r\n"
    ensures FromHex([c] + s) == FromHex(s)
  {
    assert ([c] + s)[1..] == s;
  }

  /** A space may stand between two bytes, before the first and behind the last. */
  lemma {:induction false} SpaceBetweenBytes(a: seq<byte>, c: char, b: seq<byte>)
    requires c in " \t\r\n"
    ensures FromHex(Hexlified(a) + [c] + Hexlified(b)) == Ok(a + b)
    decreases |a|
  {
    hide DigitValue, IsSpace, Digit, FromHex;
    if a == [] {
      assert Hexlified(a) + [c] + Hexlified(b) == [c] + Hexlified(b) && a + b == b;
      SpaceIsSkipped(c, Hexlified(b));
      FromHexInverts(b);
    } else {
      DigitsInvert(a[0] / 16);
      DigitsInvert(a[0] % 16);
      SpaceBetweenBytes(a[1..], c, b);
      var rest := Hexlified(a[1..]) + [c] + Hexlified(b);
      NextPair(Digit(a[0] / 16), Digit(a[0] % 16), rest);
      assert Hexlified(a) + [c] + Hexlified(b) == [Digit(a[0] / 16), Digit(a[0] % 16)] + rest;
      assert [a[0]] + (a[1..] + b) == a + b;
    }
  }

  /** No space may stand within a byte. */
  lemma SpaceWithinByte(n: byte, c: char)
    requires c in " \t\r\n"
    ensures FromHex([Digit(n / 16), c, Digit(n % 16)]) == Err(NotHex)
  {
    hide FromHex;
    DigitsInvert(n / 16);
    assert DigitValue(c) < 0;
    NextPair(Digit(n / 16), c, [Digit(n % 16)]);
    assert [Digit(n / 16), c, Digit(n % 16)] == [Digit(n / 16), c] + [Digit(n % 16)];
  }
}
