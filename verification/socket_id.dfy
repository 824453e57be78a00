/**
 * `GetSocketId`: the transport's socket name is
 * `category.XXXXXXXX.suffix`, where the middle field is the instance id
 * reinterpreted as unsigned and printed with the `X8` format: upper-case
 * hexadecimal, zero-padded to eight digits.
 */
module SocketIds {
  import opened Common

  datatype SocketId = SocketId(socketName: string)

  const HexAlphabet: string := "0123456789ABCDEF"

  predicate IsHexChar(c: char)
  {
    c in HexAlphabet
  }

  function HexValue(c: char): (v: nat)
    requires IsHexChar(c)
    ensures v < 16 && HexAlphabet[v] == c
  {
    if '0' <= c <= '9' then (c - '0') as nat else (c - 'A') as nat + 10
  }

  /** 16 to the power `n`. */
  function Pow16(n: nat): (p: nat)
    ensures p > 0
  {
    if n == 0 then 1 else 16 * Pow16(n - 1)
  }

  /** `x` in `n` hexadecimal digits, most significant first, zero-padded. */
  function HexDigits(x: nat, n: nat): (s: string)
    requires x < Pow16(n)
    ensures |s| == n
    ensures forall k :: 0 <= k < |s| ==> IsHexChar(s[k])
  {
    if n == 0 then [] else HexDigits(x / 16, n - 1) + [HexAlphabet[x % 16]]
  }

  /** The value of a string of hexadecimal digits, most significant first. */
  function ParseHex(s: string): nat
    requires forall k :: 0 <= k < |s| ==> IsHexChar(s[k])
  {
    if |s| == 0 then 0 else ParseHex(s[..|s| - 1]) * 16 + HexValue(s[|s| - 1])
  }

  /** Each digit reads back as its own value. */
  lemma HexValueOfDigit(d: nat)
    requires d < 16
    ensures HexValue(HexAlphabet[d]) == d
  {
    if d < 10 {
      assert HexAlphabet[d] == '0' + d as char;
    } else {
      assert HexAlphabet[d] == 'A' + (d - 10) as char;
    }
  }

  /** Appending a digit shifts the value one place and adds the digit. */
  lemma ParseHexSnoc(pre: string, c: char)
    requires forall k :: 0 <= k < |pre| ==> IsHexChar(pre[k])
    requires IsHexChar(c)
    ensures ParseHex(pre + [c]) == ParseHex(pre) * 16 + HexValue(c)
  {
    assert (pre + [c])[..|pre|] == pre;
  }

  /** Reading back printed digits gives the value. */
  lemma {:induction false} ParseHexDigits(x: nat, n: nat)
    requires x < Pow16(n)
    ensures ParseHex(HexDigits(x, n)) == x
  {
    if n > 0 {
      var q, d := x / 16, x % 16;
      assert q < Pow16(n - 1) && x == q * 16 + d by {
        assert Pow16(n) == 16 * Pow16(n - 1);
      }
      var pre := HexDigits(q, n - 1);
      assert HexDigits(x, n) == pre + [HexAlphabet[d]];
      ParseHexDigits(q, n - 1);
      HexValueOfDigit(d);
      ParseHexSnoc(pre, HexAlphabet[d]);
    }
  }

  /** Eight hexadecimal digits span exactly the range of a `uint`. */
  lemma Pow16Eight()
    ensures Pow16(8) == 0x1_0000_0000
  {
    assert Pow16(2) == 256;
    assert Pow16(4) == 65536;
    assert Pow16(6) == 0x100_0000;
  }

  /** The `X8` format of a `uint`: exactly eight upper-case hexadecimal digits. */
  function Hex8(x: U32): (s: string)
    ensures |s| == 8
    ensures forall k :: 0 <= k < |s| ==> IsHexChar(s[k])
  {
    Pow16Eight();
    HexDigits(x, 8)
  }

  /** Eight digits hold every `uint`, so the format loses nothing. */
  lemma Hex8RoundTrip(x: U32)
    ensures ParseHex(Hex8(x)) == x
  {
    Pow16Eight();
    ParseHexDigits(x, 8);
  }

  lemma Hex8Injective(x: U32, y: U32)
    ensures Hex8(x) == Hex8(y) <==> x == y
  {
    Hex8RoundTrip(x);
    Hex8RoundTrip(y);
  }

  /** `GetSocketId(category, instanceId, suffix)`. */
  function GetSocketId(category: string, instanceId: I32, suffix: string): (id: SocketId)
    ensures |id.socketName| == |category| + 10 + |suffix|
    ensures id.socketName[..|category|] == category
    ensures id.socketName[|category|] == '.' && id.socketName[|category| + 9] == '.'
    ensures id.socketName[|category| + 10..] == suffix
  {
    SocketId(category + "." + Hex8(ToUnsigned(instanceId)) + "." + suffix)
  }

  /** Position of the first '.' in `s`, if any. */
  function FirstDot(s: string): (r: Option<nat>)
    ensures r.Some? ==> r.value < |s| && s[r.value] == '.' && '.' !in s[..r.value]
    ensures r.None? ==> '.' !in s
  {
    if |s| == 0 then None
    else if s[0] == '.' then Some(0)
    else match FirstDot(s[1..])
      case None => None
      case Some(k) => Some(k + 1)
  }

  /** The three fields of a socket name, when it has the transport's shape. */
  datatype SocketNameFields = SocketNameFields(category: string, instance: U32, suffix: string)

  /** Reads a socket name back into its category, instance and suffix. */
  function ParseSocketName(name: string): (r: Option<SocketNameFields>)
  {
    match FirstDot(name)
    case None => None
    case Some(k) =>
      if k + 10 <= |name| && name[k + 9] == '.' && forall j :: k + 1 <= j < k + 9 ==> IsHexChar(name[j]) then
        var digits := name[k + 1..k + 9];
        var v := ParseHex(digits);
        if v < 0x1_0000_0000 then Some(SocketNameFields(name[..k], v, name[k + 10..])) else None
      else None
  }

  /** Eight hexadecimal digits never exceed a `uint`. */
  lemma {:induction false} ParseHexBound(s: string)
    requires forall k :: 0 <= k < |s| ==> IsHexChar(s[k])
    ensures ParseHex(s) < Pow16(|s|)
  {
    if |s| > 0 {
      ParseHexBound(s[..|s| - 1]);
    }
  }

  /**
   * A category without dots can be recovered from the socket name, with
   * the unsigned instance id and the suffix: the name determines all three.
   */
  lemma ParseGetSocketId(category: string, instanceId: I32, suffix: string)
    requires '.' !in category
    ensures ParseSocketName(GetSocketId(category, instanceId, suffix).socketName)
      == Some(SocketNameFields(category, ToUnsigned(instanceId), suffix))
  {
    var name := GetSocketId(category, instanceId, suffix).socketName;
    var k := |category|;
    assert name[..k] == category;
    assert FirstDot(name) == Some(k) by {
      assert name[..k + 1] == category + ".";
      FirstDotOf(category, name);
    }
    var hex := Hex8(ToUnsigned(instanceId));
    assert name[k + 1..k + 9] == hex;
    Hex8RoundTrip(ToUnsigned(instanceId));
  }

  /** A name that starts with a dot-free prefix and then a dot has its first dot there. */
  lemma {:induction false} FirstDotOf(prefix: string, s: string)
    requires '.' !in prefix && |prefix| < |s| && s[..|prefix|] == prefix && s[|prefix|] == '.'
    ensures FirstDot(s) == Some(|prefix|)
  {
    if |prefix| > 0 {
      assert s[1..][..|prefix| - 1] == prefix[1..];
      FirstDotOf(prefix[1..], s[1..]);
    }
  }
}
