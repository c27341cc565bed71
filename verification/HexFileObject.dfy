/**
  The hex file as an object: its list of regions is sorted, joined and removed
  from in place.
 */
module HexFileObject {
  import opened Basics
  import opened HexLines
  import opened HexRegions
  import opened HexAdding
  import opened HexFiles

  /** The lines so far, and those for the rest of a region, are those of the region. */
  ghost predicate Continues(r: Region, part: seq<HexLine>, upper: nat, address: nat, pos: nat) {
    pos <= |r.data| &&
      var rest := ChunkLines(upper, address, r.data[pos..]);
      RegionLines(r) == if rest.Err? then Err(DoesNotFit) else Ok(part + rest.value)
  }

  lemma {:induction false} OnlyDoesNotFit(upper: nat, address: nat, data: seq<byte>)
    ensures var r := ChunkLines(upper, address, data); r.Err? ==> r.error == DoesNotFit
    decreases |data|
  {
    if data != [] {
      var n := Min(ChunkSize, |data|);
      var over := address >= 0x1_0000;
      var up, at := if over then upper + 1 else upper, if over then address - 0x1_0000 else address;
      OnlyDoesNotFit(up, at + n, data[n..]);
    }
  }

  lemma RegionStarts(r: Region)
    requires r.address < 0x1_0000_0000
    ensures Continues(r, [ExtLine(r.address / 0x1_0000)], r.address / 0x1_0000, r.address % 0x1_0000, 0)
  {
    assert r.data[0..] == r.data;
    OnlyDoesNotFit(r.address / 0x1_0000, r.address % 0x1_0000, r.data);
  }

  lemma RegionGoesOn(r: Region, part: seq<HexLine>, upper: nat, address: nat, pos: nat)
    requires Continues(r, part, upper, address, pos) && pos < |r.data|
    ensures
      var n := Min(ChunkSize, |r.data| - pos);
      var over := address >= 0x1_0000;
      var up, at := if over then upper + 1 else upper, if over then address - 0x1_0000 else address;
      if up >= 0x1_0000 then RegionLines(r) == Err(DoesNotFit) else
        Continues(r, part + (if over then [ExtLine(up)] else []) + [HexLine(at, DATA, r.data[pos..pos + n])], up, at + n, pos + n)
  {
    var n := Min(ChunkSize, |r.data| - pos);
    var over := address >= 0x1_0000;
    var up, at := if over then upper + 1 else upper, if over then address - 0x1_0000 else address;
    var data := r.data[pos..];
    assert data[..n] == r.data[pos..pos + n] && data[n..] == r.data[pos + n..];
    if up < 0x1_0000 {
      var next := ChunkLines(up, at + n, data[n..]);
      OnlyDoesNotFit(up, at + n, data[n..]);
      var more := (if over then [ExtLine(up)] else []) + [HexLine(at, DATA, data[..n])];
      if next.Ok? {
        assert part + (more + next.value) == part + (if over then [ExtLine(up)] else []) + [HexLine(at, DATA, data[..n])] + next.value;
      }
    }
  }

  lemma RegionEnds(r: Region, part: seq<HexLine>, upper: nat, address: nat)
    requires Continues(r, part, upper, address, |r.data|)
    ensures RegionLines(r) == Ok(part)
  {
    assert r.data[|r.data|..] == [];
    assert part + [] == part;
  }

  lemma MoreLines(rs: seq<Region>, k: nat)
    requires k < |rs|
    ensures AllLines(rs[..k + 1]) ==
      (var first, last := AllLines(rs[..k]), RegionLines(rs[k]);
        if first.Err? then first else if last.Err? then last else Ok(first.value + last.value))
  {
    assert rs[..k + 1][..k] == rs[..k];
  }

  lemma {:induction false} LinesFail(rs: seq<Region>, k: nat)
    requires k <= |rs| && AllLines(rs[..k]).Err?
    ensures AllLines(rs).Err?
    decreases |rs| - k
  {
    if k < |rs| {
      MoreLines(rs, k);
      LinesFail(rs, k + 1);
    } else {
      assert rs[..k] == rs;
    }
  }

  lemma LineIsWritten(lines: seq<HexLine>, line: HexLine)
    requires Written(lines).Ok? && Fits(line)
    ensures Written(lines + [line]) == Ok(Written(lines).value + [ToLine(line).value])
  {
    assert (lines + [line])[..|lines|] == lines;
  }

  class HexFile {
    var regions: seq<Region>
    var startAddress: nat

    constructor ()
      ensures regions == [] && startAddress == 0
    {
      regions, startAddress := [], 0;
    }

    /** Joins regions that touch, until none do. */
    method Check() returns (ok: bool)
      modifies this`regions
      ensures Checked(regions, ok) == CheckAll(Sorted(old(regions)))
    {
      regions := Sorted(regions);
      var change := true;
      while change && |regions| > 1
        invariant (if change then CheckAll(regions) else Checked(regions, true)) == CheckAll(Sorted(old(regions)))
        decreases |regions|, change
      {
        change := false;
        var p := FirstPass(regions);
        ghost var all := PassFrom(p, 0);
        FirstPassShrinks(regions);
        for i := 0 to |regions| - 1
          invariant |p.copy| == |regions| && PassOk(p, i) && PassFrom(p, i) == all
          invariant p.changed == change && !p.overlap
        {
          if End(p.copy[i]) == p.copy[i + 1].address {
            p := Joined(p, i);
            change := true;
          } else if End(p.copy[i]) > p.copy[i + 1].address {
            regions := Listed(p.copy, p.listed);
            return false;
          }
        }
        assert p == all;
        regions := Listed(p.copy, p.listed);
      }
      ok := true;
    }

    method AddRegion(address: nat, data: seq<byte>) returns (ok: bool)
      modifies this`regions
      ensures Checked(regions, ok) == Added(old(regions), Region(address, data))
      ensures old(Ordered(regions)) && ok ==> Ordered(regions)
      ensures old(Normal(regions)) && data != [] && ok ==> Normal(regions)
    {
      if Ordered(regions) {
        AddedStaysOrdered(regions, Region(address, data));
      }
      regions := regions + [Region(address, data)];
      ok := Check();
    }

    /** The lines of the file, unless it reaches beyond 2^32. */
    method Save() returns (r: Result<seq<string>>)
      ensures r == Saved(regions)
    {
      hide RegionLines, Written;
      var f: seq<string> := [];
      ghost var done: seq<HexLine> := [];
      NothingWritten();
      assert regions[..0] == [];
      for k := 0 to |regions|
        invariant AllLines(regions[..k]) == Ok(done) && Written(done) == Ok(f)
      {
        MoreLines(regions, k);
        var ok;
        ok, f, done := WriteRegion(f, regions[k], done);
        if !ok {
          LinesFail(regions, k + 1);
          FailsToSave(regions);
          return Err(DoesNotFit);
        }
      }
      assert regions[..|regions|] == regions;
      f, done := WriteLine(f, EndLine, done);
      r := Ok(f);
    }

    static method WriteRegion(f: seq<string>, region: Region, ghost done: seq<HexLine>) returns (ok: bool, g: seq<string>, ghost now: seq<HexLine>)
      requires Written(done) == Ok(f)
      ensures ok ==> RegionLines(region).Ok? && now == done + RegionLines(region).value && Written(now) == Ok(g)
      ensures !ok ==> RegionLines(region) == Err(DoesNotFit)
    {
      hide RegionLines, ChunkLines, Written;
      g, now := f, done;
      var upper: nat := region.address / 0x1_0000;
      if upper >= 0x1_0000 {
        BeyondFails(region);
        return false, g, now;
      }
      RegionStarts(region);
      ghost var part := [ExtLine(upper)];
      g, now := WriteLine(g, ExtLine(upper), now);
      var address: nat, pos: nat := region.address % 0x1_0000, 0;
      while pos < |region.data|
        invariant now == done + part && Written(now) == Ok(g) && pos <= |region.data|
        invariant Continues(region, part, upper, address, pos) && address < 0x1_0000 + ChunkSize
      {
        RegionGoesOn(region, part, upper, address, pos);
        var n := Min(ChunkSize, |region.data| - pos);
        if address >= 0x1_0000 {
          upper := upper + 1;
          if upper >= 0x1_0000 {
            return false, g, now;
          }
          part := part + [ExtLine(upper)];
          g, now := WriteLine(g, ExtLine(upper), now);
          address := address - 0x1_0000;
        } else {
          assert part + [] == part;
        }
        var line := HexLine(address, DATA, region.data[pos..pos + n]);
        part := part + [line];
        g, now := WriteLine(g, line, now);
        address, pos := address + n, pos + n;
      }
      RegionEnds(region, part, upper, address);
      ok := true;
    }

    static method WriteLine(f: seq<string>, line: HexLine, ghost done: seq<HexLine>) returns (g: seq<string>, ghost now: seq<HexLine>)
      requires Written(done) == Ok(f) && Fits(line)
      ensures now == done + [line] && Written(now) == Ok(g)
    {
      LineIsWritten(done, line);
      g, now := f + [ToLine(line).value], done + [line];
    }

    /** Takes in one record. */
    method LoadLine(line: HexLine, upper: nat, ended: bool) returns (r: Result<Loading>)
      modifies this
      ensures r.Ok? <==> Loaded(old(Loading(regions, startAddress, upper, ended)), line).Ok?
      ensures r.Ok? ==>
        && r == Loaded(old(Loading(regions, startAddress, upper, ended)), line)
        && regions == r.value.regions && startAddress == r.value.start
    {
      hide Added;
      var up, end := upper, ended;
      if ended {
        return Err(AfterEnd);
      }
      if line.typ == DATA {
        var ok := AddRegion(line.address + upper * 0x1_0000, line.data);
        if !ok {
          return Err(Overlap);
        }
      } else if line.typ == EXTLINADR {
        if |line.data| < 2 {
          return Err(TooShort);
        }
        up := line.data[0] as int * 256 + line.data[1];
      } else if line.typ == EOF {
        if line.data != [] {
          return Err(EndNotEmpty);
        }
        end := true;
      } else if line.typ == STARTADDR {
        if |line.data| < 4 {
          return Err(TooShort);
        }
        startAddress := ((line.data[0] as int * 256 + line.data[1]) * 256 + line.data[2]) * 256 + line.data[3];
      } else {
        return Err(UnknownType);
      }
      r := Ok(Loading(regions, startAddress, up, end));
    }

    /** Reads lines into a file that has no regions yet. */
    method Load(texts: seq<string>) returns (r: Result<nat>)
      requires regions == [] && startAddress == 0
      modifies this
      ensures r.Ok? <==> TextLoaded(Nothing, texts).Ok?
      ensures r.Ok? ==> regions == TextLoaded(Nothing, texts).value.regions && startAddress == TextLoaded(Nothing, texts).value.start
    {
      hide Loaded, Stripped, FromLine;
      var ended := false;
      var upper: nat := 0;
      assert texts[..0] == [];
      for k := 0 to |texts|
        invariant TextLoaded(Nothing, texts[..k]) == Ok(Loading(regions, startAddress, upper, ended))
      {
        NextText(texts, k);
        var s := Stripped(texts[k]);
        if s == "" || s[0] != ':' {
          continue;
        }
        var line := FromLine(s);
        if line.Err? {
          LoadFails(texts, k + 1);
          return Err(line.error);
        }
        var next := LoadLine(line.value, upper, ended);
        if next.Err? {
          LoadFails(texts, k + 1);
          return Err(next.error);
        }
        upper, ended := next.value.upper, next.value.ended;
      }
      assert texts[..|texts|] == texts;
      r := Ok(|regions|);
    }
  }

  lemma NextText(texts: seq<string>, k: nat)
    requires k < |texts| && TextLoaded(Nothing, texts[..k]).Ok?
    ensures TextLoaded(Nothing, texts[..k + 1]) == LoadedText(TextLoaded(Nothing, texts[..k]).value, texts[k])
  {
    assert texts[..k + 1][..k] == texts[..k];
  }

  lemma AddedStaysOrdered(rs: seq<Region>, r: Region)
    requires Ordered(rs)
    ensures Added(rs, r).ok ==> Ordered(Added(rs, r).regions)
    ensures Added(rs, r).ok && Normal(rs) && r.data != [] ==> Normal(Added(rs, r).regions)
  {
    hide Added, CheckAll, Joint, Ordered, Inserted;
    var p := Place(rs, r);
    InsertedAtPlace(rs, r);
    AddedIsInserted(rs, r);
    assert rs[..p] + rs[p..] == rs;
    OrderedPrefix(rs, p);
    OrderedBehind(rs, p);
    AddedRegion(rs[..p], r, rs[p..]);
  }

  lemma OrderedBehind(rs: seq<Region>, p: nat)
    requires Ordered(rs) && p <= |rs|
    ensures Ordered(rs[p..])
  {
    var t := rs[p..];
    forall k {:trigger t[k]} | 0 <= k < |t| - 1
      ensures Apart(t[k], t[k + 1])
    {
      assert Apart(rs[p + k], rs[p + k + 1]);
    }
  }

  lemma BeyondFails(r: Region)
    requires r.address / 0x1_0000 >= 0x1_0000
    ensures RegionLines(r) == Err(DoesNotFit)
  {
  }

  lemma NothingWritten()
    ensures Written([]) == Ok([])
  {
  }

  lemma FailsToSave(rs: seq<Region>)
    requires AllLines(rs).Err?
    ensures Saved(rs) == Err(DoesNotFit)
  {
    OnlyFits(rs);
  }

  lemma {:induction false} OnlyFits(rs: seq<Region>)
    ensures AllLines(rs).Err? ==> AllLines(rs).error == DoesNotFit
  {
    if rs != [] {
      OnlyFits(rs[..|rs| - 1]);
      var r := rs[|rs| - 1];
      OnlyDoesNotFit(r.address / 0x1_0000, r.address % 0x1_0000, r.data);
    }
  }

  lemma {:induction false} LoadFails(texts: seq<string>, k: nat)
    requires k <= |texts| && TextLoaded(Nothing, texts[..k]).Err?
    ensures TextLoaded(Nothing, texts).Err?
    decreases |texts| - k
  {
    if k < |texts| {
      assert texts[..k + 1][..k] == texts[..k];
      LoadFails(texts, k + 1);
    } else {
      assert texts[..k] == texts;
    }
  }
}
