/**
  A line of an Intel hex file: a record as bytes, and the bytes as text. Reading
  a line undoes writing it, and no single wrong character gets through.
 */
module HexLines {
  import opened Basics

  datatype Result<T> = Ok(value: T) | Err(error: Error)

  datatype Error =
    | NoColon | NotHex | NoBytes | ByteCount | Checksum | DoesNotFit
    | Overlap | AfterEnd | EndNotEmpty | TooShort | UnknownType

  datatype HexLine = HexLine(address: nat, typ: nat, data: seq<byte>)

  function Sum(nums: seq<byte>): nat {
    if nums == [] then 0 else Sum(nums[..|nums| - 1]) + nums[|nums| - 1]
  }

  predicate Fits(l: HexLine) {
    l.address < 0x1_0000 && l.typ < 256 && |l.data| < 256
  }

  /** Byte count, address, type and data. */
  function Fields(l: HexLine): seq<byte>
    requires Fits(l)
  {
    [|l.data|, l.address / 256, l.address % 256, l.typ] + l.data
  }

  /** The bytes of a line add up to 0, modulo 256. */
  function Nums(l: HexLine): seq<byte>
    requires Fits(l)
  {
    Fields(l) + [(0 - Sum(Fields(l)) as int) % 256]
  }

  function FromNums(nums: seq<byte>): Result<HexLine> {
    if nums == [] then Err(NoBytes)
    else if |nums| != nums[0] as int + 5 then Err(ByteCount)
    else if Sum(nums) % 256 != 0 then Err(Checksum)
    else Ok(HexLine(nums[1] as int * 256 + nums[2], nums[3], nums[4..|nums| - 1]))
  }

  lemma FromNumsInverts(l: HexLine)
    requires Fits(l)
    ensures FromNums(Nums(l)) == Ok(l)
  {
    var nums := Nums(l);
    assert nums[..|nums| - 1] == Fields(l);
  }

  lemma TwoBytes(high: byte, low: byte)
    ensures var n := high as int * 256 + low; n / 256 == high && n % 256 == low
  {
  }

  lemma CheckByte(sum: nat, b: byte)
    requires (sum + b) % 256 == 0
    ensures (0 - sum as int) % 256 == b
  {
  }

  /** A line that is read is the only one that reads like that. */
  lemma NumsAreUnique(nums: seq<byte>)
    requires FromNums(nums).Ok?
    ensures Fits(FromNums(nums).value) && Nums(FromNums(nums).value) == nums
  {
    var l, last := FromNums(nums).value, nums[|nums| - 1];
    TwoBytes(nums[1], nums[2]);
    assert nums[..|nums| - 1] == Fields(l);
    CheckByte(Sum(Fields(l)), last);
    assert nums == Fields(l) + [last];
  }

  lemma {:induction false} ChangedSum(nums: seq<byte>, k: nat, b: byte)
    requires k < |nums|
    ensures Sum(nums[k := b]) == Sum(nums) - nums[k] + b
  {
    if k == |nums| - 1 {
      assert nums[k := b][..k] == nums[..k];
    } else {
      ChangedSum(nums[..|nums| - 1], k, b);
      assert nums[k := b][..|nums| - 1] == nums[..|nums| - 1][k := b];
    }
  }

  /** Any single changed byte is noticed. */
  lemma ChangedByteIsRejected(nums: seq<byte>, k: nat, b: byte)
    requires FromNums(nums).Ok? && k < |nums| && b != nums[k]
    ensures FromNums(nums[k := b]).Err?
  {
    ChangedSum(nums, k, b);
  }

  /** ----- text ----- */

  function Digit(n: nat): char
    requires n < 16
  {
    "0123456789abcdef"[n]
  }

  function DigitValue(c: char): (r: int)
    ensures -1 <= r < 16
  {
    if '0' <= c <= '9' then c as int - '0' as int
    else if 'a' <= c <= 'f' then c as int - 'a' as int + 10
    else if 'A' <= c <= 'F' then c as int - 'A' as int + 10
    else -1
  }

  predicate IsSpace(c: char) {
    c == ' ' || '\t' <= c <= '\r'
  }

  function Hexlified(nums: seq<byte>): (s: string)
    ensures |s| == 2 * |nums|
  {
    if nums == [] then "" else [Digit(nums[0] / 16), Digit(nums[0] % 16)] + Hexlified(nums[1..])
  }

  /** Two digits to a byte; spaces may stand between bytes. */
  function FromHex(s: string): Result<seq<byte>> {
    if s == "" then Ok([])
    else if IsSpace(s[0]) then FromHex(s[1..])
    else if |s| == 1 || DigitValue(s[0]) < 0 || DigitValue(s[1]) < 0 then Err(NotHex)
    else
      var rest := FromHex(s[2..]);
      if rest.Err? then rest else Ok([DigitValue(s[0]) * 16 + DigitValue(s[1])] + rest.value)
  }

  lemma DigitsInvert(n: nat)
    requires n < 16
    ensures DigitValue(Digit(n)) == n && !IsSpace(Digit(n))
  {
  }

  lemma NextPair(a: char, b: char, rest: string)
    ensures !IsSpace(a) && DigitValue(a) >= 0 && DigitValue(b) >= 0 ==>
      FromHex([a, b] + rest) == (
        var r := FromHex(rest);
        if r.Err? then r else Ok([DigitValue(a) * 16 + DigitValue(b)] + r.value))
    ensures !IsSpace(a) && (DigitValue(a) < 0 || DigitValue(b) < 0) ==> FromHex([a, b] + rest) == Err(NotHex)
  {
    hide DigitValue, IsSpace;
    assert ([a, b] + rest)[2..] == rest;
  }

  lemma DigitsAreNoSpace(c: char)
    ensures DigitValue(c) >= 0 ==> !IsSpace(c)
  {
  }

  lemma {:induction false} FromHexInverts(nums: seq<byte>)
    ensures FromHex(Hexlified(nums)) == Ok(nums)
  {
    hide DigitValue, IsSpace, Digit;
    if nums != [] {
      DigitsInvert(nums[0] / 16);
      DigitsInvert(nums[0] % 16);
      FromHexInverts(nums[1..]);
      NextPair(Digit(nums[0] / 16), Digit(nums[0] % 16), Hexlified(nums[1..]));
      assert [nums[0]] + nums[1..] == nums;
    }
  }

  function ToLine(l: HexLine): Result<string> {
    if Fits(l) then Ok(":" + Hexlified(Nums(l))) else Err(DoesNotFit)
  }

  function FromLine(line: string): Result<HexLine> {
    if line == "" || line[0] != ':' then Err(NoColon)
    else
      var nums := FromHex(line[1..]);
      if nums.Err? then Err(nums.error) else FromNums(nums.value)
  }

  /** Reading a line that was written gives it back. */
  lemma FromLineInverts(l: HexLine)
    requires Fits(l)
    ensures ToLine(l).Ok? && FromLine(ToLine(l).value) == Ok(l)
  {
    FromHexInverts(Nums(l));
    FromNumsInverts(l);
    assert (":" + Hexlified(Nums(l)))[1..] == Hexlified(Nums(l));
  }

  ghost predicate AllDigits(s: string) {
    forall k :: 0 <= k < |s| ==> DigitValue(s[k]) >= 0 && !IsSpace(s[k])
  }

  /** An odd number of digits is not hex. */
  lemma {:induction false} OddIsNotHex(s: string)
    requires |s| % 2 == 1 && AllDigits(s)
    ensures FromHex(s).Err?
  {
    if |s| > 1 {
      OddIsNotHex(s[2..]);
    }
  }

  lemma {:induction false} HexlifiedDigits(nums: seq<byte>)
    ensures AllDigits(Hexlified(nums))
  {
    hide DigitValue, IsSpace, Digit;
    if nums != [] {
      DigitsInvert(nums[0] / 16);
      DigitsInvert(nums[0] % 16);
      HexlifiedDigits(nums[1..]);
      var s, t := Hexlified(nums), Hexlified(nums[1..]);
      forall k | 0 <= k < |s|
        ensures DigitValue(s[k]) >= 0 && !IsSpace(s[k])
      {
        assert s[0] == Digit(nums[0] / 16) && s[1] == Digit(nums[0] % 16);
        if k >= 2 {
          assert s[k] == t[k - 2];
        }
      }
    }
  }

  /** What may become of the bytes when one of them has changed. */
  ghost predicate OneChanged(nums: seq<byte>, k: nat, now: Result<seq<byte>>)
    requires k < |nums|
  {
    exists b: byte {:trigger nums[k := b]} :: b != nums[k] && now == Ok(nums[k := b])
  }

  /** The first byte with one of its digits replaced. */
  function Redigit(n: byte, k: nat, d: int): int {
    if k == 0 then d * 16 + n % 16 else n / 16 * 16 + d
  }

  lemma FirstHexlified(nums: seq<byte>, c: char)
    requires nums != []
    ensures var s := Hexlified(nums);
      && s[0] == Digit(nums[0] / 16) && s[1] == Digit(nums[0] % 16)
      && DigitValue(s[0]) == nums[0] / 16 && !IsSpace(s[0]) && DigitValue(s[1]) == nums[0] % 16 && !IsSpace(s[1])
      && s[0 := c] == [c, s[1]] + Hexlified(nums[1..]) && s[1 := c] == [s[0], c] + Hexlified(nums[1..])
  {
    hide Digit, DigitValue, IsSpace;
    var a, b, rest := Digit(nums[0] / 16), Digit(nums[0] % 16), Hexlified(nums[1..]);
    assert Hexlified(nums) == [a, b] + rest;
    hide Hexlified;
    DigitsInvert(nums[0] / 16);
    DigitsInvert(nums[0] % 16);
    assert ([a, b] + rest)[0 := c] == [c, b] + rest;
    assert ([a, b] + rest)[1 := c] == [a, c] + rest;
  }

  lemma FirstNoDigit(nums: seq<byte>, k: nat, c: char)
    requires nums != [] && k < 2 && DigitValue(c) < 0
    ensures FromHex(Hexlified(nums)[k := c]).Err?
  {
    hide DigitValue, IsSpace, Digit, FromHex, Hexlified;
    var s, rest := Hexlified(nums), nums[1..];
    FirstHexlified(nums, c);
    if k == 0 && IsSpace(c) {
      HexlifiedDigits(nums);
      assert s[0 := c][1..] == s[1..];
      OddIsNotHex(s[1..]);
      SpaceSkipped(s[0 := c]);
    } else if k == 0 {
      NextPair(c, s[1], Hexlified(rest));
    } else {
      NextPair(s[0], c, Hexlified(rest));
    }
  }

  lemma SpaceSkipped(s: string)
    requires s != "" && IsSpace(s[0])
    ensures FromHex(s) == FromHex(s[1..])
  {
  }

  lemma FirstDigit(nums: seq<byte>, k: nat, c: char)
    requires nums != [] && k < 2 && DigitValue(c) >= 0
    ensures DigitValue(Hexlified(nums)[k]) == if k == 0 then nums[0] / 16 else nums[0] % 16
    ensures FromHex(Hexlified(nums)[k := c]) == Ok([Redigit(nums[0], k, DigitValue(c))] + nums[1..])
  {
    hide DigitValue, IsSpace, Digit, FromHex, Hexlified;
    var s, rest := Hexlified(nums), nums[1..];
    FirstHexlified(nums, c);
    DigitsAreNoSpace(c);
    FromHexInverts(rest);
    NextPair(c, s[1], Hexlified(rest));
    NextPair(s[0], c, Hexlified(rest));
  }

  /** A changed digit of the first byte. */
  lemma ChangedFirst(nums: seq<byte>, k: nat, c: char)
    requires nums != [] && k < 2
    ensures
      var r := FromHex(Hexlified(nums)[k := c]);
      if DigitValue(c) < 0 then r.Err?
      else if DigitValue(c) == DigitValue(Hexlified(nums)[k]) then r == Ok(nums)
      else OneChanged(nums, 0, r)
  {
    hide DigitValue, IsSpace, Digit, FromHex, Hexlified;
    if DigitValue(c) < 0 {
      FirstNoDigit(nums, k, c);
    } else {
      FirstDigit(nums, k, c);
      var b := Redigit(nums[0], k, DigitValue(c));
      assert nums[0 := b] == [b] + nums[1..] && nums == [nums[0]] + nums[1..];
    }
  }

  /** A changed character is no hex, or one changed byte, or a digit in the other case. */
  lemma {:induction false} ChangedCharacter(nums: seq<byte>, k: nat, c: char)
    requires k < 2 * |nums|
    ensures
      var r := FromHex(Hexlified(nums)[k := c]);
      if DigitValue(c) < 0 then r.Err?
      else if DigitValue(c) == DigitValue(Hexlified(nums)[k]) then r == Ok(nums)
      else OneChanged(nums, k / 2, r)
  {
    hide DigitValue, IsSpace, Digit;
    if k < 2 {
      ChangedFirst(nums, k, c);
    } else {
      var s, rest := Hexlified(nums), nums[1..];
      var t := s[k := c];
      DigitsInvert(nums[0] / 16);
      DigitsInvert(nums[0] % 16);
      ChangedCharacter(rest, k - 2, c);
      NextPair(s[0], s[1], Hexlified(rest)[k - 2 := c]);
      assert s[0] == Digit(nums[0] / 16) && s[1] == Digit(nums[0] % 16);
      assert nums == [nums[0]] + rest;
      assert t == [s[0], s[1]] + Hexlified(rest)[k - 2 := c];
      if DigitValue(c) >= 0 && DigitValue(c) != DigitValue(s[k]) {
        assert OneChanged(rest, k / 2 - 1, FromHex(Hexlified(rest)[k - 2 := c]));
        var b: byte :| b != rest[k / 2 - 1] && FromHex(Hexlified(rest)[k - 2 := c]) == Ok(rest[k / 2 - 1 := b]);
        assert nums[k / 2 := b] == [nums[0]] + rest[k / 2 - 1 := b];
      }
    }
  }

  /** A written line with any one character changed, other than to the same digit in the other case, is rejected. */
  lemma ChangedLineIsRejected(l: HexLine, k: nat, c: char)
    requires Fits(l) && k < |ToLine(l).value| && c != ToLine(l).value[k]
    ensures
      var r := FromLine(ToLine(l).value[k := c]);
      if k > 0 && DigitValue(c) >= 0 && DigitValue(c) == DigitValue(ToLine(l).value[k]) then r == Ok(l) else r.Err?
  {
    var nums := Nums(l);
    var line := ToLine(l).value;
    FromNumsInverts(l);
    if k > 0 {
      assert line[1..] == Hexlified(nums);
      assert line[k := c][1..] == Hexlified(nums)[k - 1 := c];
      ChangedCharacter(nums, k - 1, c);
      if DigitValue(c) >= 0 && DigitValue(c) != DigitValue(line[k]) {
        assert OneChanged(nums, (k - 1) / 2, FromHex(line[k := c][1..]));
        var b: byte :| b != nums[(k - 1) / 2] && FromHex(line[k := c][1..]) == Ok(nums[(k - 1) / 2 := b]);
        ChangedByteIsRejected(nums, (k - 1) / 2, b);
      }
    }
  }

  /** The line at the end of every file. */
  lemma EndLineText()
    ensures ToLine(HexLine(0, 1, [])) == Ok(":00000001ff")
  {
    EndLineNums();
    var none: seq<byte> := [];
    var a, b, c, d, e: seq<byte> := [0, 0, 0, 1, 255], [0, 0, 1, 255], [0, 1, 255], [1, 255], [255];
    assert a[1..] == b && b[1..] == c && c[1..] == d && d[1..] == e && e[1..] == none;
    hide Nums;
    assert Hexlified(none) == "";
    assert Hexlified(e) == "ff" + "";
    assert Hexlified(d) == "01" + "ff";
    assert Hexlified(c) == "00" + "01ff";
    assert Hexlified(b) == "00" + "0001ff";
    assert Hexlified(a) == "00" + "000001ff" == "00000001ff";
    assert ":" + "00000001ff" == ":00000001ff";
  }

  lemma SumNext(nums: seq<byte>, b: byte)
    ensures Sum(nums + [b]) == Sum(nums) + b
  {
    assert (nums + [b])[..|nums|] == nums;
  }

  lemma EndLineNums()
    ensures Nums(HexLine(0, 1, [])) == [0, 0, 0, 1, 255]
  {
    var l := HexLine(0, 1, []);
    var f: seq<byte> := [0, 0, 0, 1];
    assert Fields(l) == f;
    SumNext([], 0);
    SumNext([0], 0);
    SumNext([0, 0], 0);
    SumNext([0, 0, 0], 1);
    assert [] + [0] == [0] && [0] + [0] == [0, 0] && [0, 0] + [0] == [0, 0, 0] && [0, 0, 0] + [1] == f;
    assert Sum(f) == 1;
  }
}
