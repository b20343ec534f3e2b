/** The hover colour of the GitHub tab's buttons: a `#rrggbb` colour with 30 taken off each
    channel, floored at 0.

    Reading a channel is Python's `int(piece, 16)` on a slice of at most two characters.
    On pieces that short it accepts one or two hex digits of either case, optionally signed
    and optionally surrounded by whitespace, and rejects everything else, the empty piece
    included; a rejected piece is the `ValueError` the method lets escape, here `Err`. */
module ColorUtil {
  import opened Wrappers
  import Text

  /** The value of one hex digit of either case. */
  function HexValue(c: char): (r: Option<nat>)
    ensures r.Some? ==> r.value < 16
    ensures r.Some? <==> ('0' <= c <= '9' || 'a' <= c <= 'f' || 'A' <= c <= 'F')
  {
    if '0' <= c <= '9' then Some(c as nat - '0' as nat)
    else if 'a' <= c <= 'f' then Some(c as nat - 'a' as nat + 10)
    else if 'A' <= c <= 'F' then Some(c as nat - 'A' as nat + 10)
    else None
  }

  predicate IsLowerHex(c: char) { '0' <= c <= '9' || 'a' <= c <= 'f' }

  /** The value of a non-empty run of hex digits, most significant first. */
  function DigitsValue(s: string): (r: Option<nat>)
    ensures r.Some? ==> s != []
  {
    if s == [] then None
    else if |s| == 1 then HexValue(s[0])
    else match (DigitsValue(s[..|s| - 1]), HexValue(s[|s| - 1]))
      case (Some(high), Some(low)) => Some(16 * high + low)
      case _ => None
  }

  /** `int(piece, 16)` on a piece of at most two characters. */
  function PyHexInt(piece: string): (r: Option<int>)
    requires |piece| <= 2
    ensures r.Some? ==> -15 <= r.value <= 255
  {
    var t := Text.Trim(piece);
    if t == [] then None
    else if t[0] == '+' || t[0] == '-' then
      match DigitsValue(t[1..])
      case Some(v) =>
        assert |t[1..]| <= 1 by { TrimShorter(piece); }
        var n: int := v;
        if t[0] == '-' then Some(-n) else Some(n)
      case None => None
    else
      assert |t| <= 2 by { TrimShorter(piece); }
      assert |t| == 2 ==> DigitsValue(t) == None || DigitsValue(t).value <= 255 by {
        if |t| == 2 && DigitsValue(t).Some? {
          assert t[..1] == [t[0]];
        }
      }
      DigitsValue(t)
  }

  lemma TrimShorter(s: string)
    ensures |Text.Trim(s)| <= |s|
  {
    var i :| 0 <= i <= |s| && Text.Trim(s) <= s[i..] && forall k :: 0 <= k < i ==> Text.IsSpace(s[k]);
  }

  /** Python's `s[i:j]` for `0 <= i <= j`: the bounds clamp to the string. */
  function Slice(s: string, i: nat, j: nat): (r: string)
    requires i <= j
    ensures |r| <= j - i
    ensures j <= |s| ==> r == s[i..j]
  {
    if i >= |s| then [] else if j >= |s| then s[i..] else s[i..j]
  }

  /** `lstrip('#')`: every leading `#` removed. */
  function StripHashes(s: string): (r: string)
    ensures r == [] || r[0] != '#'
    ensures |r| <= |s|
  {
    if s != [] && s[0] == '#' then StripHashes(s[1..]) else s
  }

  /** What `lstrip('#')` leaves is the string after a run of `#`s. */
  lemma {:induction false} StripHashesSuffix(s: string)
    ensures s[|s| - |StripHashes(s)|..] == StripHashes(s)
    ensures forall k :: 0 <= k < |s| - |StripHashes(s)| ==> s[k] == '#'
  {
    if s != [] && s[0] == '#' {
      StripHashesSuffix(s[1..]);
      assert s[1..][|s| - 1 - |StripHashes(s)|..] == s[|s| - |StripHashes(s)|..];
    }
  }

  /** The channel a hex digit pair shows, darkened: the larger of 0 and 30 less, so black
      exactly for channels up to 30 and never lighter than the channel. */
  function Darker(c: int): (d: nat)
    ensures d >= c - 30 && (d == 0 || d == c - 30)
    ensures d == 0 <==> c <= 30
    ensures c >= 0 ==> d <= c
  {
    if c >= 30 then c - 30 else 0
  }

  /** A lighter channel never darkens to a darker one. */
  lemma DarkerMonotone(a: int, b: int)
    requires a <= b
    ensures Darker(a) <= Darker(b)
  {
  }

  /** The lower-case hex digit of a value below 16. */
  function HexDigit(v: nat): (c: char)
    requires v < 16
    ensures IsLowerHex(c) && HexValue(c) == Some(v)
  {
    if v < 10 then ('0' as nat + v) as char else ('a' as nat + v - 10) as char
  }

  /** `format(v, '02x')` for a value below 256. */
  function Hex2(v: nat): (r: string)
    requires v < 256
    ensures |r| == 2 && IsLowerHex(r[0]) && IsLowerHex(r[1])
  {
    [HexDigit(v / 16), HexDigit(v % 16)]
  }

  /** Two digits read back as the value they were written from. */
  lemma Hex2RoundTrip(v: nat)
    requires v < 256
    ensures DigitsValue(Hex2(v)) == Some(v)
    ensures PyHexInt(Hex2(v)) == Some(v)
  {
    var h := Hex2(v);
    assert h[..1] == [h[0]];
    Text.TrimNoSpaces(h);
  }

  /** `#rrggbb` for three channels below 256. */
  function Format(r: nat, g: nat, b: nat): (s: string)
    requires r < 256 && g < 256 && b < 256
    ensures |s| == 7 && s[0] == '#'
    ensures forall k :: 1 <= k < 7 ==> IsLowerHex(s[k])
  {
    "#" + Hex2(r) + Hex2(g) + Hex2(b)
  }

  /** The three channels of a colour text whose leading `#`s are gone. */
  function Channels(h: string): (r: Option<(int, int, int)>)
    ensures r.Some? ==> -15 <= r.value.0 <= 255 && -15 <= r.value.1 <= 255 && -15 <= r.value.2 <= 255
  {
    match (PyHexInt(Slice(h, 0, 2)), PyHexInt(Slice(h, 2, 4)), PyHexInt(Slice(h, 4, 6)))
    case (Some(r), Some(g), Some(b)) => Some((r, g, b))
    case _ => None
  }

  const InvalidLiteral: string := "invalid literal for int() with base 16"

  /** The darkened colour of three channels that were read. */
  function Darkened(c: (int, int, int)): (s: string)
    requires c.0 <= 255 && c.1 <= 255 && c.2 <= 255
    ensures |s| == 7 && s[0] == '#'
    ensures forall k :: 1 <= k < 7 ==> IsLowerHex(s[k])
  {
    Format(Darker(c.0), Darker(c.1), Darker(c.2))
  }

  /** `_darken_color`: each channel 30 darker, written back as `#` and six lower-case hex
      digits; a channel that does not read is an error. */
  function DarkenColor(hex: string): (r: Result<string>)
    ensures r.Ok? <==> Channels(StripHashes(hex)).Some?
    ensures r.Ok? ==> |r.value| == 7 && r.value[0] == '#'
    ensures r.Ok? ==> forall k :: 1 <= k < 7 ==> IsLowerHex(r.value[k])
  {
    var c := Channels(StripHashes(hex));
    if c.Some? then Ok(Darkened(c.value)) else Err(InvalidLiteral)
  }

  /** Leading `#`s make no difference: with one, with several or with none, the colour
      darkens the same. */
  lemma HashOptional(hex: string)
    ensures DarkenColor("#" + hex) == DarkenColor(hex)
    ensures DarkenColor(StripHashes(hex)) == DarkenColor(hex)
  {
    assert ("#" + hex)[1..] == hex;
    var r := StripHashes(hex);
    assert r == [] || r[0] != '#';
  }

  /** The three two-character pieces of six characters. */
  lemma SixPieces(a: string, b: string, c: string)
    requires |a| == 2 && |b| == 2 && |c| == 2
    ensures Slice(a + b + c, 0, 2) == a && Slice(a + b + c, 2, 4) == b && Slice(a + b + c, 4, 6) == c
  {
    var h := a + b + c;
    assert h[0..2] == a;
    assert h[2..4] == b;
    assert h[4..6] == c;
  }

  /** Reading the channels of a written colour gives them back. */
  lemma ChannelsOfFormat(r: nat, g: nat, b: nat)
    requires r < 256 && g < 256 && b < 256
    ensures Channels(StripHashes(Format(r, g, b))) == Some((r, g, b))
  {
    var s := Format(r, g, b);
    assert s[1..] == Hex2(r) + Hex2(g) + Hex2(b);
    assert StripHashes(s) == s[1..];
    SixPieces(Hex2(r), Hex2(g), Hex2(b));
    Hex2RoundTrip(r);
    Hex2RoundTrip(g);
    Hex2RoundTrip(b);
  }

  /** A written colour darkens channel by channel, and the result reads back as exactly the
      darkened channels. */
  lemma DarkenRoundTrip(r: nat, g: nat, b: nat)
    requires r < 256 && g < 256 && b < 256
    ensures DarkenColor(Format(r, g, b)) == Ok(Format(Darker(r), Darker(g), Darker(b)))
    ensures Channels(StripHashes(DarkenColor(Format(r, g, b)).value)) == Some((Darker(r), Darker(g), Darker(b)))
  {
    ChannelsOfFormat(r, g, b);
    ChannelsOfFormat(Darker(r), Darker(g), Darker(b));
  }

  /** Whatever colour text is given, a result that is produced reads back as the channels
      of the input, each 30 darker and floored at 0. */
  lemma DarkensEachChannel(hex: string)
    requires DarkenColor(hex).Ok?
    ensures var c := Channels(StripHashes(hex)).value;
            Channels(StripHashes(DarkenColor(hex).value)) == Some((Darker(c.0), Darker(c.1), Darker(c.2)))
  {
    var c := Channels(StripHashes(hex)).value;
    ChannelsOfFormat(Darker(c.0), Darker(c.1), Darker(c.2));
  }

  const Black: string := "#000000"

  /** Black cannot get darker. */
  lemma BlackStaysBlack()
    ensures DarkenColor(Black) == Ok(Black)
  {
    assert Format(0, 0, 0) == Black;
    DarkenRoundTrip(0, 0, 0);
  }
}
