/** UTF-8 of 16-bit runes (utf.c). Bytes are characters below 256, and a string ends at its first
    zero byte or behind its last one. */
module Utf {

  type Rune = r: int | 0 <= r < 0x1_0000

  const BAD: Rune := 0xFFFD

  function ByteAt(s: string, p: nat): int {
    if p < |s| then s[p] as int else 0
  }

  predicate Trailing(b: int) {
    0x80 <= b < 0xC0
  }

  /** `chartorune`: the rune at p and its length. */
  function RuneAt(s: string, p: nat): (r: (Rune, nat))
    ensures r.1 >= 1 && (p < |s| ==> p + r.1 <= |s|) && (ByteAt(s, p) < 0x80 ==> r == (ByteAt(s, p), 1))
  {
    var c, c1, c2 := ByteAt(s, p), ByteAt(s, p + 1), ByteAt(s, p + 2);
    if c < 0x80 then (c, 1)
    else if !Trailing(c1) || c < 0xC0 then (BAD, 1)
    else if c < 0xE0 then
      var l := c % 32 * 64 + c1 % 64;
      if l < 0x80 then (BAD, 1) else (l, 2)
    else if !Trailing(c2) || c >= 0xF0 then (BAD, 1)
    else
      var l := c % 16 * 4096 + c1 % 64 * 64 + c2 % 64;
      if l < 0x800 then (BAD, 1) else (l, 3)
  }

  /** `runetochar` */
  function RuneText(r: Rune): (t: string)
    ensures 1 <= |t| <= 3 && forall c | c in t :: c as int < 256
  {
    if r < 0x80 then [r as char]
    else if r < 0x800 then [(0xC0 + r / 64) as char, (0x80 + r % 64) as char]
    else [(0xE0 + r / 4096) as char, (0x80 + r / 64 % 64) as char, (0x80 + r % 64) as char]
  }

  predicate TwoBytes(t: string, r: int) {
    && |t| == 2 && 0xC0 <= t[0] as int < 0xE0 && 0x80 <= t[1] as int < 0xC0
    && r == (t[0] as int - 0xC0) * 64 + (t[1] as int - 0x80)
  }

  predicate ThreeBytes(t: string, r: int) {
    && |t| == 3 && 0xE0 <= t[0] as int < 0xF0 && 0x80 <= t[1] as int < 0xC0 && 0x80 <= t[2] as int < 0xC0
    && r == (t[0] as int - 0xE0) * 4096 + (t[1] as int - 0x80) * 64 + (t[2] as int - 0x80)
  }

  /** The bytes of a rune: a leading one that tells how many there are, and six bits in each other. */
  lemma {:induction false} RuneBytes(r: Rune)
    ensures r < 0x80 ==> RuneText(r) == [r as char]
    ensures 0x80 <= r < 0x800 ==> TwoBytes(RuneText(r), r)
    ensures 0x800 <= r ==> ThreeBytes(RuneText(r), r)
  {
    if r >= 0x800 { SixBits(r); }
  }

  lemma {:induction false} SixBits(r: Rune)
    ensures r == r / 4096 * 4096 + r / 64 % 64 * 64 + r % 64
  {
    assert r / 64 == r / 4096 * 64 + r / 64 % 64;
  }

  /** t lies in s from p on. */
  predicate At(s: string, p: nat, t: string) {
    p + |t| <= |s| && s[p..p + |t|] == t
  }

  lemma {:induction false} AtParts(s: string, p: nat, t: string, u: string)
    ensures At(s, p, t + u) <==> At(s, p, t) && At(s, p + |t|, u)
  {
    if At(s, p, t + u) {
      assert s[p..p + |t|] == (t + u)[..|t|] == t;
      assert s[p + |t|..p + |t| + |u|] == (t + u)[|t|..] == u;
    }
    if At(s, p, t) && At(s, p + |t|, u) {
      assert s[p..p + |t + u|] == s[p..p + |t|] + s[p + |t|..p + |t| + |u|];
    }
  }

  lemma {:induction false} Join2(a: int, b: int)
    requires 0 <= a < 32 && 0 <= b < 64
    ensures (a * 64 + b) / 64 == a && (a * 64 + b) % 64 == b
    ensures (0xC0 + a) % 32 == a && (0x80 + b) % 64 == b
  {
  }

  lemma {:induction false} Join3(a: int, b: int, c: int)
    requires 0 <= a < 16 && 0 <= b < 64 && 0 <= c < 64
    ensures var r := a * 4096 + b * 64 + c; r / 4096 == a && r / 64 % 64 == b && r % 64 == c
    ensures (0xE0 + a) % 16 == a && (0x80 + b) % 64 == b && (0x80 + c) % 64 == c
  {
    var r := a * 4096 + b * 64 + c;
    assert r / 64 == a * 64 + b;
  }

  lemma {:induction false} ByteIn(s: string, p: nat, t: string, i: nat)
    requires At(s, p, t) && i < |t|
    ensures p + i < |s| && s[p + i] == t[i] && ByteAt(s, p + i) == t[i] as int
  {
    assert s[p + i] == s[p..p + |t|][i];
  }

  /** Every rune is read back, the surrogates included. */
  lemma {:induction false} RuneBack(s: string, p: nat, r: Rune)
    requires At(s, p, RuneText(r))
    ensures RuneAt(s, p) == (r, |RuneText(r)|)
  {
    hide At, RuneAt;
    ByteIn(s, p, RuneText(r), 0);
    if r < 0x80 { Back1(s, p, r); } else if r < 0x800 {
      ByteIn(s, p, RuneText(r), 1);
      Back2(s, p, r);
    } else {
      ByteIn(s, p, RuneText(r), 1);
      ByteIn(s, p, RuneText(r), 2);
      Back3(s, p, r);
    }
  }

  lemma {:induction false} Back1(s: string, p: nat, r: Rune)
    requires r < 0x80 && ByteAt(s, p) == r
    ensures RuneAt(s, p) == (r, 1)
  {
  }

  lemma {:induction false} Back2(s: string, p: nat, r: Rune)
    requires 0x80 <= r < 0x800 && ByteAt(s, p) == 0xC0 + r / 64 && ByteAt(s, p + 1) == 0x80 + r % 64
    ensures RuneAt(s, p) == (r, 2)
  {
    hide ByteAt;
    Join2(r / 64, r % 64);
  }

  lemma {:induction false} Back3(s: string, p: nat, r: Rune)
    requires 0x800 <= r && ByteAt(s, p) == 0xE0 + r / 4096
    requires ByteAt(s, p + 1) == 0x80 + r / 64 % 64 && ByteAt(s, p + 2) == 0x80 + r % 64
    ensures RuneAt(s, p) == (r, 3)
  {
    hide ByteAt;
    Join3(r / 4096, r / 64 % 64, r % 64);
  }

  /** Nothing else is read as a rune: overlong and broken sequences give the error rune, byte by byte. */
  lemma {:induction false} RuneForth(s: string, p: nat)
    requires p < |s|
    ensures var (r, n) := RuneAt(s, p); (At(s, p, RuneText(r)) && |RuneText(r)| == n) || (r == BAD && n == 1)
  {
    hide RuneAt, RuneText;
    match RuneAt(s, p).1
    case 1 => Forth1(s, p);
    case 2 => Forth2(s, p);
    case _ => Forth3(s, p);
  }

  lemma {:induction false} Bytes1(s: string, p: nat)
    requires p + 1 <= |s|
    ensures s[p..p + 1] == [s[p]]
  {
  }

  lemma {:induction false} Bytes2(s: string, p: nat)
    requires p + 2 <= |s|
    ensures s[p..p + 2] == [s[p], s[p + 1]]
  {
  }

  lemma {:induction false} Bytes3(s: string, p: nat)
    requires p + 3 <= |s|
    ensures s[p..p + 3] == [s[p], s[p + 1], s[p + 2]]
  {
  }

  lemma {:induction false} Forth1(s: string, p: nat)
    requires p < |s| && RuneAt(s, p).1 == 1
    ensures var r := RuneAt(s, p).0; (At(s, p, RuneText(r)) && |RuneText(r)| == 1) || r == BAD
  {
    Bytes1(s, p);
  }

  lemma {:induction false} Forth2(s: string, p: nat)
    requires p < |s| && RuneAt(s, p).1 == 2
    ensures var r := RuneAt(s, p).0; At(s, p, RuneText(r)) && |RuneText(r)| == 2
  {
    Join2(ByteAt(s, p) - 0xC0, ByteAt(s, p + 1) - 0x80);
    Bytes2(s, p);
  }

  lemma {:induction false} Forth3(s: string, p: nat)
    requires p < |s| && RuneAt(s, p).1 != 1 && RuneAt(s, p).1 != 2
    ensures var (r, n) := RuneAt(s, p); At(s, p, RuneText(r)) && |RuneText(r)| == n
  {
    Join3(ByteAt(s, p) - 0xE0, ByteAt(s, p + 1) - 0x80, ByteAt(s, p + 2) - 0x80);
    Bytes3(s, p);
  }

  /** A string of non-zero runes from p on. */
  predicate ValidFrom(s: string, p: nat)
    decreases |s| - p
  {
    p >= |s| || (var (r, n) := RuneAt(s, p);
      r != 0 && At(s, p, RuneText(r)) && |RuneText(r)| == n && ValidFrom(s, p + n))
  }
}
