/**
  A hex file: it is saved as lines, in chunks, with a record for the upper half
  of the addresses wherever that changes; and loaded from lines again.
 */
module HexFiles {
  import opened Basics
  import opened HexLines
  import opened HexRegions
  import opened HexAdding
  import opened Arithmetic

  const DATA: nat := 0
  const EOF: nat := 1
  const EXTLINADR: nat := 4
  const STARTADDR: nat := 5
  const ChunkSize: nat := 30

  /** ----- saving ----- */

  function ExtLine(upper: nat): HexLine {
    HexLine(0, EXTLINADR, [upper / 256 % 256, upper % 256])
  }

  function Min(a: nat, b: nat): nat {
    if a <= b then a else b
  }

  /** The lines for what is left of a region: its address counts from the upper half last written. */
  function ChunkLines(upper: nat, address: nat, data: seq<byte>): Result<seq<HexLine>>
    decreases |data|
  {
    if data == [] then Ok([]) else
      var n := Min(ChunkSize, |data|);
      var over := address >= 0x1_0000;
      var up, at := if over then upper + 1 else upper, if over then address - 0x1_0000 else address;
      if up >= 0x1_0000 then Err(DoesNotFit) else
        var rest := ChunkLines(up, at + n, data[n..]);
        if rest.Err? then rest
        else Ok((if over then [ExtLine(up)] else []) + [HexLine(at, DATA, data[..n])] + rest.value)
  }

  function RegionLines(r: Region): Result<seq<HexLine>> {
    var upper := r.address / 0x1_0000;
    if upper >= 0x1_0000 then Err(DoesNotFit) else
      var rest := ChunkLines(upper, r.address % 0x1_0000, r.data);
      if rest.Err? then rest else Ok([ExtLine(upper)] + rest.value)
  }

  function AllLines(rs: seq<Region>): Result<seq<HexLine>> {
    if rs == [] then Ok([]) else
      var first := AllLines(rs[..|rs| - 1]);
      var last := RegionLines(rs[|rs| - 1]);
      if first.Err? then first else if last.Err? then last else Ok(first.value + last.value)
  }

  const EndLine: HexLine := HexLine(0, EOF, [])

  function Written(lines: seq<HexLine>): Result<seq<string>> {
    if lines == [] then Ok([]) else
      var first := Written(lines[..|lines| - 1]);
      var last := ToLine(lines[|lines| - 1]);
      if first.Err? then first else if last.Err? then Err(last.error) else Ok(first.value + [last.value])
  }

  function Saved(rs: seq<Region>): Result<seq<string>> {
    var lines := AllLines(rs);
    if lines.Err? then Err(lines.error) else Written(lines.value + [EndLine])
  }

  /** ----- loading ----- */

  /** What is known while lines are read. */
  datatype Loading = Loading(regions: seq<Region>, start: nat, upper: nat, ended: bool)

  function Loaded(l: Loading, line: HexLine): Result<Loading> {
    if l.ended then Err(AfterEnd)
    else if line.typ == DATA then
      var c := Added(l.regions, Region(line.address + l.upper * 0x1_0000, line.data));
      if c.ok then Ok(l.(regions := c.regions)) else Err(Overlap)
    else if line.typ == EXTLINADR then
      if |line.data| < 2 then Err(TooShort) else Ok(l.(upper := line.data[0] as int * 256 + line.data[1]))
    else if line.typ == EOF then
      if line.data != [] then Err(EndNotEmpty) else Ok(l.(ended := true))
    else if line.typ == STARTADDR then
      if |line.data| < 4 then Err(TooShort)
      else Ok(l.(start := ((line.data[0] as int * 256 + line.data[1]) * 256 + line.data[2]) * 256 + line.data[3]))
    else Err(UnknownType)
  }

  /** What Python strips from a string: more than `bytes.fromhex` passes over. */
  predicate IsBlank(c: char) {
    || IsSpace(c)
    || 0x1c <= c as int <= 0x1f
    || 0x2000 <= c as int <= 0x200a
    || c as int in {0x85, 0xa0, 0x1680, 0x2028, 0x2029, 0x202f, 0x205f, 0x3000}
  }

  function Stripped(s: string): string {
    if s == "" then "" else if IsBlank(s[0]) then Stripped(s[1..])
    else if IsBlank(s[|s| - 1]) then Stripped(s[..|s| - 1]) else s
  }

  /** Lines that do not start with a colon are passed over. */
  function LoadedText(l: Loading, text: string): Result<Loading> {
    var s := Stripped(text);
    if s == "" || s[0] != ':' then Ok(l) else
      var line := FromLine(s);
      if line.Err? then Err(line.error) else Loaded(l, line.value)
  }

  function AllLoaded(l: Loading, lines: seq<HexLine>): Result<Loading> {
    if lines == [] then Ok(l) else
      var first := AllLoaded(l, lines[..|lines| - 1]);
      if first.Err? then first else Loaded(first.value, lines[|lines| - 1])
  }

  function TextLoaded(l: Loading, texts: seq<string>): Result<Loading> {
    if texts == [] then Ok(l) else
      var first := TextLoaded(l, texts[..|texts| - 1]);
      if first.Err? then first else LoadedText(first.value, texts[|texts| - 1])
  }

  const Nothing: Loading := Loading([], 0, 0, false)

  /** ----- what is saved is loaded ----- */

  lemma {:induction false} LoadedInTurn(l: Loading, a: seq<HexLine>, b: seq<HexLine>)
    requires AllLoaded(l, a).Ok?
    ensures AllLoaded(l, a + b) == AllLoaded(AllLoaded(l, a).value, b)
  {
    hide Loaded;
    if b == [] {
      assert a + b == a;
    } else {
      assert (a + b)[..|a + b| - 1] == a + b[..|b| - 1] && (a + b)[|a + b| - 1] == b[|b| - 1];
      LoadedInTurn(l, a, b[..|b| - 1]);
    }
  }

  lemma OneLoaded(l: Loading, line: HexLine)
    ensures AllLoaded(l, [line]) == Loaded(l, line)
  {
    hide Loaded;
    assert [line][..0] == [];
    assert AllLoaded(l, []) == Ok(l);
  }

  lemma ExtLoaded(l: Loading, upper: nat)
    requires !l.ended && upper < 0x1_0000
    ensures Loaded(l, ExtLine(upper)) == Ok(l.(upper := upper))
  {
  }

  /** A region behind all others, and apart from them, is appended. */
  lemma AppendedApart(rs: seq<Region>, r: Region)
    requires Normal(rs + [r])
    ensures Added(rs, r) == Checked(rs + [r], true)
  {
    AppendedIsAround(rs, r);
    AddedRegion(rs, r, []);
    assert rs + [r] + [] == rs + [r];
    assert Trimmed(rs, r) == rs by {
      if rs != [] {
        assert (rs + [r])[|rs| - 1] == rs[|rs| - 1];
      }
    }
    assert Joint(rs, r, []) == rs + [r] by {
      if rs != [] {
        assert (rs + [r])[|rs| - 1] == rs[|rs| - 1] && (rs + [r])[|rs|] == r;
        assert Apart(rs[|rs| - 1], r);
      }
    }
    assert !Overlaps(rs, r, []) by {
      if rs != [] {
        assert (rs + [r])[|rs| - 1] == rs[|rs| - 1] && (rs + [r])[|rs|] == r;
        assert Apart(rs[|rs| - 1], r);
      }
    }
  }

  lemma AppendedIsAround(rs: seq<Region>, r: Region)
    requires Normal(rs + [r])
    ensures Around(rs, r, []) && Added(rs, r) == CheckAll(rs + [r])
  {
    assert (rs + [r])[..|rs|] == rs && (rs + [r])[|rs|] == r;
    NormalPrefix(rs + [r], |rs|);
    assert rs + [] == rs;
    if rs != [] {
      OrderedAddresses(rs + [r], |rs| - 1, |rs|);
      assert (rs + [r])[|rs| - 1] == rs[|rs| - 1];
    }
    AddedIsInserted(rs, r);
  }

  /** More data right behind the last region extends it. */
  lemma AppendedTouching(rs: seq<Region>, last: Region, data: seq<byte>)
    requires Normal(rs + [last]) && data != []
    ensures Added(rs + [last], Region(End(last), data)) == Checked(rs + [Region(last.address, last.data + data)], true)
  {
    var a, r := rs + [last], Region(End(last), data);
    assert a[|rs|] == last && last.data != [];
    assert a + [] == a;
    assert a[..|a| - 1] == rs;
    AddedIsInserted(a, r);
    AddedRegion(a, r, []);
    assert a + [r] + [] == a + [r];
    assert Trimmed(a, r) == a;
    assert Joint(a, r, []) == rs + [Region(last.address, last.data + data)];
  }

  lemma NormalShorter(rs: seq<Region>, r: Region, m: nat)
    requires Normal(rs + [r]) && 0 < m <= |r.data|
    ensures Normal(rs + [Region(r.address, r.data[..m])])
  {
    var s, t := rs + [r], rs + [Region(r.address, r.data[..m])];
    forall k {:trigger t[k]} | 0 <= k < |t| - 1
      ensures Apart(t[k], t[k + 1])
    {
      assert Apart(s[k], s[k + 1]);
    }
    assert forall k {:trigger t[k]} :: 0 <= k < |rs| ==> t[k] == s[k];
  }

  /** A region up to its k-th byte, behind others. */
  function UpTo(rs: seq<Region>, r: Region, k: nat): seq<Region>
    requires k <= |r.data|
  {
    if k == 0 then rs else rs + [Region(r.address, r.data[..k])]
  }

  lemma OneChunk(l: Loading, rs: seq<Region>, r: Region, k: nat, n: nat, address: nat)
    requires !l.ended && 0 < n && k + n <= |r.data| && Normal(rs + [r])
    requires l.regions == UpTo(rs, r, k) && address + l.upper * 0x1_0000 == r.address + k
    ensures Loaded(l, HexLine(address, DATA, r.data[k..k + n])) == Ok(l.(regions := UpTo(rs, r, k + n)))
  {
    hide Added, Normal;
    NormalShorter(rs, r, k + n);
    if k == 0 {
      AppendedApart(rs, Region(r.address, r.data[..n]));
      assert r.data[0..n] == r.data[..n];
    } else {
      NormalShorter(rs, r, k);
      AppendedTouching(rs, Region(r.address, r.data[..k]), r.data[k..k + n]);
      assert r.data[..k] + r.data[k..k + n] == r.data[..k + n];
    }
  }

  /** Chunk by chunk, a region comes together again. */
  lemma {:induction false} ChunksLoaded(l: Loading, rs: seq<Region>, r: Region, k: nat, address: nat)
    requires !l.ended && k <= |r.data| && Normal(rs + [r]) && End(r) <= 0x1_0000_0000
    requires l.regions == UpTo(rs, r, k)
    requires l.upper * 0x1_0000 + address == r.address + k && l.upper < 0x1_0000 && address < 0x1_0000 + ChunkSize
    ensures
      var lines := ChunkLines(l.upper, address, r.data[k..]);
      && lines.Ok? && AllLoaded(l, lines.value).Ok?
      && (var m := AllLoaded(l, lines.value).value; !m.ended && m.start == l.start && m.regions == UpTo(rs, r, |r.data|))
    decreases |r.data| - k
  {
    hide Loaded, UpTo, AllLoaded, Normal;
    var data := r.data[k..];
    if data == [] {
      assert AllLoaded(l, []) == Ok(l) by {
        NoneLoaded(l);
      }
    } else {
      var n := Min(ChunkSize, |data|);
      var over := address >= 0x1_0000;
      var up, at := if over then l.upper + 1 else l.upper, if over then address - 0x1_0000 else address;
      var ext, line := if over then [ExtLine(up)] else [], HexLine(at, DATA, data[..n]);
      var g := l.(upper := up);
      assert AllLoaded(l, ext) == Ok(g) by {
        if over {
          OneLoaded(l, ExtLine(up));
          ExtLoaded(l, up);
        } else {
          NoneLoaded(l);
        }
      }
      assert data[..n] == r.data[k..k + n];
      OneChunk(g, rs, r, k, n, at);
      var h := g.(regions := UpTo(rs, r, k + n));
      OneLoaded(g, line);
      LoadedInTurn(l, ext, [line]);
      assert data[n..] == r.data[k + n..];
      ChunksLoaded(h, rs, r, k + n, at + n);
      var rest := ChunkLines(up, at + n, data[n..]);
      LoadedInTurn(l, ext + [line], rest.value);
    }
  }

  lemma NoneLoaded(l: Loading)
    ensures AllLoaded(l, []) == Ok(l)
  {
  }

  lemma RegionLoaded(l: Loading, r: Region)
    requires !l.ended && Normal(l.regions + [r]) && End(r) <= 0x1_0000_0000
    ensures
      var lines := RegionLines(r);
      && lines.Ok? && AllLoaded(l, lines.value).Ok?
      && (var m := AllLoaded(l, lines.value).value; !m.ended && m.start == l.start && m.regions == l.regions + [r])
  {
    hide Loaded, AllLoaded, ChunkLines;
    var upper := r.address / 0x1_0000;
    assert r.data != [] by {
      assert (l.regions + [r])[|l.regions|] == r;
    }
    var g := l.(upper := upper);
    OneLoaded(l, ExtLine(upper));
    ExtLoaded(l, upper);
    assert r.data[0..] == r.data && r.data[..|r.data|] == r.data;
    ChunksLoaded(g, l.regions, r, 0, r.address % 0x1_0000);
    LoadedInTurn(l, [ExtLine(upper)], ChunkLines(upper, r.address % 0x1_0000, r.data).value);
  }

  lemma {:induction false} RegionsLoaded(rs: seq<Region>)
    requires Normal(rs) && forall k :: 0 <= k < |rs| ==> End(rs[k]) <= 0x1_0000_0000
    ensures
      var lines := AllLines(rs);
      && lines.Ok? && AllLoaded(Nothing, lines.value).Ok?
      && (var m := AllLoaded(Nothing, lines.value).value; !m.ended && m.start == 0 && m.regions == rs)
  {
    hide Loaded, AllLoaded, RegionLines;
    if rs == [] {
      NoneLoaded(Nothing);
    } else {
      var n := |rs| - 1;
      NormalPrefix(rs, n);
      RegionsLoaded(rs[..n]);
      assert rs[..n] + [rs[n]] == rs;
      var l := AllLoaded(Nothing, AllLines(rs[..n]).value).value;
      RegionLoaded(l, rs[n]);
      LoadedInTurn(Nothing, AllLines(rs[..n]).value, RegionLines(rs[n]).value);
    }
  }

  /** ----- as text ----- */

  lemma {:induction false} ChunkLinesFit(upper: nat, address: nat, data: seq<byte>)
    requires ChunkLines(upper, address, data).Ok? && address < 0x1_0000 + ChunkSize
    ensures forall line :: line in ChunkLines(upper, address, data).value ==> Fits(line)
    decreases |data|
  {
    if data != [] {
      var n := Min(ChunkSize, |data|);
      var over := address >= 0x1_0000;
      var up, at := if over then upper + 1 else upper, if over then address - 0x1_0000 else address;
      ChunkLinesFit(up, at + n, data[n..]);
    }
  }

  lemma {:induction false} AllLinesFit(rs: seq<Region>)
    requires AllLines(rs).Ok?
    ensures forall line :: line in AllLines(rs).value ==> Fits(line)
  {
    if rs != [] {
      AllLinesFit(rs[..|rs| - 1]);
      var r := rs[|rs| - 1];
      ChunkLinesFit(r.address / 0x1_0000, r.address % 0x1_0000, r.data);
    }
  }

  lemma DigitIsNotBlank(c: char)
    ensures DigitValue(c) >= 0 || c == ':' ==> !IsBlank(c)
  {
  }

  lemma WrittenIsStripped(line: HexLine)
    requires Fits(line)
    ensures Stripped(ToLine(line).value) == ToLine(line).value
  {
    hide IsBlank, DigitValue;
    var s := ToLine(line).value;
    HexlifiedDigits(Nums(line));
    DigitIsNotBlank(':');
    DigitIsNotBlank(s[|s| - 1]);
    assert s[|s| - 1] == Hexlified(Nums(line))[|s| - 2];
  }

  lemma {:induction false} TextIsLines(l: Loading, lines: seq<HexLine>)
    requires forall line :: line in lines ==> Fits(line)
    ensures Written(lines).Ok? && |Written(lines).value| == |lines|
    ensures TextLoaded(l, Written(lines).value) == AllLoaded(l, lines)
  {
    hide Loaded, FromLine, Stripped, ToLine, Fits;
    if lines != [] {
      var init, last := lines[..|lines| - 1], lines[|lines| - 1];
      TextIsLines(l, init);
      FromLineInverts(last);
      WrittenIsStripped(last);
      StartsWithColon(last);
      var texts := Written(lines).value;
      assert texts[..|texts| - 1] == Written(init).value && texts[|texts| - 1] == ToLine(last).value;
    }
  }

  lemma StartsWithColon(line: HexLine)
    requires Fits(line)
    ensures ToLine(line).Ok? && ToLine(line).value != "" && ToLine(line).value[0] == ':'
  {
  }

  /**
    What is saved is loaded again: every file of regions below 2^32 that are in
    order, not empty and apart, whatever 64 KiB boundaries they cross.
   */
  lemma SavedIsLoaded(rs: seq<Region>)
    requires Normal(rs) && forall k :: 0 <= k < |rs| ==> End(rs[k]) <= 0x1_0000_0000
    ensures Saved(rs).Ok? && TextLoaded(Nothing, Saved(rs).value).Ok?
    ensures TextLoaded(Nothing, Saved(rs).value).value.regions == rs
  {
    hide Loaded, AllLoaded, AllLines, Written, TextLoaded;
    RegionsLoaded(rs);
    AllLinesFit(rs);
    var lines := AllLines(rs).value;
    TextIsLines(Nothing, lines + [EndLine]);
    LoadedInTurn(Nothing, lines, [EndLine]);
    var l := AllLoaded(Nothing, lines).value;
    OneLoaded(l, EndLine);
    EndLoaded(l);
  }

  lemma EndLoaded(l: Loading)
    requires !l.ended
    ensures Loaded(l, EndLine) == Ok(l.(ended := true))
  {
  }

  /** ----- other records ----- */

  /** The four bytes of a number below 2^32, the highest first. */
  function FourBytes(n: nat): seq<byte>
    requires n < 0x1_0000_0000
  {
    [n / 0x100_0000, n / 0x1_0000 % 0x100, n / 0x100 % 0x100, n % 0x100]
  }

  /** The start address is the number that the record holds, whatever the file has been so far. */
  lemma StartIsLoaded(l: Loading, n: nat)
    requires !l.ended && n < 0x1_0000_0000
    ensures Loaded(l, HexLine(0, STARTADDR, FourBytes(n))) == Ok(l.(start := n))
  {
    ByteAndRest(n, 0x100);
    ByteAndRest(n, 0x1_0000);
    assert n == n / 0x100 * 256 + n % 0x100;
    hide Added;
  }

  lemma ByteAndRest(n: nat, d: nat)
    requires d > 0
    ensures n / d == n / (d * 0x100) * 0x100 + n / d % 0x100
  {
    var q, r := n / d, n % d;
    var h, l := q / 0x100, q % 0x100;
    assert q == h * 0x100 + l && n == d * q + r;
    assert d * q == d * 0x100 * h + d * l;
    InBlock(d, l, r);
    Remainder(n, d * 0x100, h, d * l + r);
  }

  lemma InBlock(d: nat, l: nat, r: nat)
    requires l < 0x100 && r < d
    ensures d * l + r < d * 0x100
  {
    assert d * l <= d * 0xff;
  }

  /** An end record is empty, an upper address has two bytes, a start address four. */
  predicate WellSized(line: HexLine) {
    (line.typ == 1 && line.data == []) || (line.typ == 4 && |line.data| >= 2) || (line.typ == 5 && |line.data| >= 4)
  }

  /** What a line that holds no data needs to be accepted, and what every line leaves alone; the types
      are those of the format. */
  lemma AcceptedWhen(l: Loading, line: HexLine)
    ensures line.typ != 0 ==> (Loaded(l, line).Ok? <==> !l.ended && WellSized(line))
    ensures Loaded(l, line).Ok? ==>
      var m := Loaded(l, line).value;
      && !l.ended && (m.ended <==> line.typ == 1) && (line.typ != 0 ==> m.regions == l.regions)
      && (line.typ != 4 ==> m.upper == l.upper) && (line.typ != 5 ==> m.start == l.start)
  {
  }

  /** Nothing is accepted behind the end of a file. */
  lemma {:induction false} EndIsLast(l: Loading, lines: seq<HexLine>, k: nat)
    requires k < |lines| && lines[k].typ == 1 && AllLoaded(l, lines).Ok?
    ensures k == |lines| - 1 && lines[k].data == []
    decreases |lines|
  {
    var n := |lines| - 1;
    if k < n {
      EndIsLast(l, lines[..n], k);
      assert k == n - 1;
      EndedBy(l, lines[..n]);
      assert false;
    }
  }

  lemma EndedBy(l: Loading, lines: seq<HexLine>)
    requires lines != [] && lines[|lines| - 1].typ == 1 && AllLoaded(l, lines).Ok?
    ensures AllLoaded(l, lines).value.ended
  {
  }

  /** Data lines hold up to 30 bytes, and only the last one of a region fewer. */
  lemma {:induction false} ChunksAreShort(upper: nat, address: nat, data: seq<byte>)
    requires ChunkLines(upper, address, data).Ok?
    ensures var lines := ChunkLines(upper, address, data).value;
      && (forall k :: 0 <= k < |lines| && lines[k].typ == 0 ==> 0 < |lines[k].data| <= 30)
      && (forall k :: 0 <= k < |lines| - 1 && lines[k].typ == 0 ==> |lines[k].data| == 30)
    decreases |data|
  {
    if data != [] {
      var n := Min(ChunkSize, |data|);
      var over := address >= 0x1_0000;
      var up, at := if over then upper + 1 else upper, if over then address - 0x1_0000 else address;
      ChunksAreShort(up, at + n, data[n..]);
      if n == |data| {
        assert ChunkLines(up, at + n, data[n..]).value == [];
      }
    }
  }
}
