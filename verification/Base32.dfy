/**
  Partial digests as text: `PartialDigest::parse` and its `Display` in
  `crates/spfs-encoding/src/hash.rs`, with the Base32 encoding of section 6 of RFC 4648.

  Data is a string of bits, most significant first; five bits make a symbol, eight a byte.
 */
module Base32 {
  import opened Graph

  // ----- Bits in groups -----

  predicate Width(n: nat) { n == 5 || n == 8 }

  function Pow2(n: nat): nat { if n == 0 then 1 else 2 * Pow2(n - 1) }

  function BitsOf(v: nat, n: nat): (bits: seq<bool>)
    ensures |bits| == n
  {
    if n == 0 then [] else BitsOf(v / 2, n - 1) + [v % 2 == 1]
  }

  function ValueOf(bits: seq<bool>): nat {
    if bits == [] then 0 else 2 * ValueOf(bits[..|bits| - 1]) + (if bits[|bits| - 1] then 1 else 0)
  }

  lemma {:induction false} ValueOfBits(v: nat, n: nat)
    requires v < Pow2(n)
    ensures ValueOf(BitsOf(v, n)) == v
  {
    if n > 0 {
      ValueOfBits(v / 2, n - 1);
      assert BitsOf(v, n)[..n - 1] == BitsOf(v / 2, n - 1);
    }
  }

  lemma {:induction false} BitsOfValue(bits: seq<bool>)
    ensures ValueOf(bits) < Pow2(|bits|)
    ensures BitsOf(ValueOf(bits), |bits|) == bits
  {
    if bits != [] {
      BitsOfValue(bits[..|bits| - 1]);
      assert bits == bits[..|bits| - 1] + [bits[|bits| - 1]];
    }
  }

  /** The bits of all values, one after the other. */
  function Flatten(values: seq<nat>, n: nat): seq<bool> {
    if values == [] then [] else BitsOf(values[0], n) + Flatten(values[1..], n)
  }

  /** The values of the complete groups of `n` bits; what is left over at the end is ignored. */
  function Group(bits: seq<bool>, n: nat): seq<nat>
    requires n > 0
  {
    if |bits| < n then [] else [ValueOf(bits[..n])] + Group(bits[n..], n)
  }

  predicate Below(values: seq<nat>, bound: nat) {
    forall i :: 0 <= i < |values| ==> values[i] < bound
  }

  lemma {:induction false} FlattenLength(values: seq<nat>, n: nat)
    requires Width(n)
    ensures |Flatten(values, n)| == n * |values|
  {
    if values != [] {
      FlattenLength(values[1..], n);
    }
  }

  lemma {:induction false} FlattenPrefix(values: seq<nat>, n: nat, k: nat)
    requires Width(n) && k <= |values|
    ensures n * k <= |Flatten(values, n)| && Flatten(values[..k], n) == Flatten(values, n)[..n * k]
  {
    FlattenLength(values, n);
    if k > 0 {
      FlattenPrefix(values[1..], n, k - 1);
      assert values[..k][1..] == values[1..][..k - 1];
      assert Flatten(values, n)[..n * k] == BitsOf(values[0], n) + Flatten(values[1..], n)[..n * (k - 1)];
    }
  }

  lemma {:induction false} GroupOfFlatten(values: seq<nat>, tail: seq<bool>, n: nat)
    requires Width(n) && Below(values, Pow2(n)) && |tail| < n
    ensures Group(Flatten(values, n) + tail, n) == values
  {
    if values != [] {
      var bits, rest := Flatten(values, n) + tail, Flatten(values[1..], n) + tail;
      ConcatAssociates(BitsOf(values[0], n), Flatten(values[1..], n), tail);
      hide BitsOf, ValueOf, Pow2;
      assert bits == BitsOf(values[0], n) + rest;
      assert bits[..n] == BitsOf(values[0], n) && bits[n..] == rest;
      ValueOfBits(values[0], n);
      GroupOfFlatten(values[1..], tail, n);
    }
  }

  lemma {:induction false} FlattenOfGroup(bits: seq<bool>, n: nat)
    requires Width(n) && |bits| % n == 0
    ensures Flatten(Group(bits, n), n) == bits && Below(Group(bits, n), Pow2(n))
    ensures |bits| == n * |Group(bits, n)|
  {
    if |bits| >= n {
      FlattenOfGroup(bits[n..], n);
      BitsOfValue(bits[..n]);
      assert bits == bits[..n] + bits[n..];
      assert Group(bits, n)[1..] == Group(bits[n..], n);
    }
  }

  lemma {:induction false} GroupPrefix(bits: seq<bool>, n: nat, j: nat)
    requires Width(n) && j <= |bits|
    ensures j / n <= |Group(bits, n)| && Group(bits[..j], n) == Group(bits, n)[..j / n]
  {
    hide ValueOf;
    if j >= n {
      GroupPrefix(bits[n..], n, j - n);
      assert bits[..j][..n] == bits[..n] && bits[..j][n..] == bits[n..][..j - n];
      assert j / n == (j - n) / n + 1;
    } else {
      assert j / n == 0;
    }
  }

  lemma {:induction false} GroupConcat(a: seq<bool>, b: seq<bool>, n: nat)
    requires Width(n) && |a| % n == 0
    ensures Group(a + b, n) == Group(a, n) + Group(b, n)
  {
    hide ValueOf;
    if |a| < n {
      assert a == [] && a + b == b;
    } else {
      GroupConcat(a[n..], b, n);
      assert (a + b)[..n] == a[..n] && (a + b)[n..] == a[n..] + b;
    }
  }

  // ----- The alphabet -----

  const PAD: char := '='

  function SymbolOf(v: nat): char
    requires v < 32
  {
    if v < 26 then ('A' as int + v) as char else ('2' as int + v - 26) as char
  }

  function SymbolValue(c: char): Option<nat> {
    if 'A' <= c <= 'Z' then Some(c as int - 'A' as int)
    else if '2' <= c <= '7' then Some(c as int - '2' as int + 26)
    else None
  }

  /** Table 3 of RFC 4648. */
  lemma Alphabet(v: nat)
    requires v < 32
    ensures SymbolOf(v) == "ABCDEFGHIJKLMNOPQRSTUVWXYZ234567"[v]
    ensures SymbolValue("ABCDEFGHIJKLMNOPQRSTUVWXYZ234567"[v]) == Some(v)
  {
  }

  lemma OnlySymbols(c: char)
    ensures SymbolValue(c).Some? <==> c in "ABCDEFGHIJKLMNOPQRSTUVWXYZ234567"
  {
    var table := "ABCDEFGHIJKLMNOPQRSTUVWXYZ234567";
    if SymbolValue(c).Some? {
      assert table[SymbolValue(c).value] == c;
    }
  }

  predicate AllSymbols(s: string) {
    forall i :: 0 <= i < |s| ==> SymbolValue(s[i]).Some?
  }

  function Values(s: string): (values: seq<nat>)
    requires AllSymbols(s)
  {
    seq(|s|, i requires 0 <= i < |s| => SymbolValue(s[i]).value)
  }

  function Symbols(values: seq<nat>): string
    requires Below(values, 32)
  {
    seq(|values|, i requires 0 <= i < |values| => SymbolOf(values[i]))
  }

  lemma SymbolsValues(values: seq<nat>)
    requires Below(values, 32)
    ensures AllSymbols(Symbols(values)) && Values(Symbols(values)) == values
  {
  }

  // ----- Encoding and decoding -----

  function Padding(n: nat): string { seq(n, _ => PAD) }

  function TrimEnd(s: string): string {
    if s != [] && s[|s| - 1] == PAD then TrimEnd(s[..|s| - 1]) else s
  }

  /** The bits of the bytes, filled up with zeros to whole symbols. */
  function PaddedBits(bytes: seq<nat>): (bits: seq<bool>)
    ensures |bits| % 5 == 0
  {
    var bits := Flatten(bytes, 8);
    bits + seq((5 - |bits| % 5) % 5, _ => false)
  }

  function SymbolText(bytes: seq<nat>): string {
    FlattenOfGroup(PaddedBits(bytes), 5);
    assert Pow2(5) == 32;
    Symbols(Group(PaddedBits(bytes), 5))
  }

  /** The encoding of section 6 of RFC 4648: whole blocks of eight characters. */
  function Encode(bytes: seq<nat>): string {
    SymbolText(bytes) + Padding((8 - |SymbolText(bytes)| % 8) % 8)
  }

  /** How a partial digest is displayed. */
  function Display(bytes: seq<nat>): string {
    TrimEnd(Encode(bytes))
  }

  /** How many symbols the last block of eight may have. */
  predicate BlockLength(n: nat) { n == 2 || n == 4 || n == 5 || n == 7 || n == 8 }

  function DecodeBlock(block: string): Option<seq<nat>> {
    var symbols := TrimEnd(block);
    if BlockLength(|symbols|) && AllSymbols(symbols) then Some(Group(Flatten(Values(symbols), 5), 8)) else None
  }

  function DecodeBlocks(s: string): Option<seq<nat>>
    requires |s| % 8 == 0
  {
    if s == [] then Some([])
    else
      var block, rest := DecodeBlock(s[..8]), DecodeBlocks(s[8..]);
      if block.Some? && rest.Some? then Some(block.value + rest.value) else None
  }

  /** Parse a partial digest: pad it to whole blocks and decode, ignoring trailing bits. */
  function Parse(source: string): Option<seq<nat>> {
    if source == [] then None
    else DecodeBlocks(Padded(source))
  }

  lemma {:induction false} TrimPadding(s: string, n: nat)
    requires s != [] ==> s[|s| - 1] != PAD
    ensures TrimEnd(s + Padding(n)) == s
  {
    var text := s + Padding(n);
    if n == 0 {
      assert text == s;
    } else {
      assert text[..|text| - 1] == s + Padding(n - 1);
      TrimPadding(s, n - 1);
    }
  }

  lemma LastIsNotPad(s: string)
    requires AllSymbols(s) && s != []
    ensures s[|s| - 1] != PAD
  {
  }

  /** The symbols followed by what completes their last block. */
  function Padded(s: string): (padded: string)
    ensures |padded| % 8 == 0
  {
    if |s| % 8 == 0 then s else s + Padding(8 - |s| % 8)
  }

  /** What the first block decodes to comes first. */
  lemma FirstBlock(s: string)
    requires AllSymbols(s) && |s| >= 8
    ensures Padded(s)[..8] == s[..8] && Padded(s)[8..] == Padded(s[8..])
    ensures DecodeBlock(s[..8]) == Some(Group(Flatten(Values(s[..8]), 5), 8))
    ensures Group(Flatten(Values(s), 5), 8)
            == Group(Flatten(Values(s[..8]), 5), 8) + Group(Flatten(Values(s[8..]), 5), 8)
  {
    hide Group, Flatten;
    var first, rest := s[..8], s[8..];
    LastIsNotPad(first);
    assert Values(s) == Values(first) + Values(rest);
    FlattenSplit(Values(first), Values(rest), 5);
    FlattenLength(Values(first), 5);
    GroupConcat(Flatten(Values(first), 5), Flatten(Values(rest), 5), 8);
  }

  lemma LastBlock(s: string)
    requires AllSymbols(s) && 0 < |s| < 8
    ensures DecodeBlocks(Padded(s)) == if BlockLength(|s|) then Some(Group(Flatten(Values(s), 5), 8)) else None
  {
    hide Group, Flatten;
    LastIsNotPad(s);
    TrimPadding(s, 8 - |s|);
    var padded := Padded(s);
    assert padded[..8] == padded && padded[8..] == [];
    var bytes := Group(Flatten(Values(s), 5), 8);
    assert bytes + [] == bytes;
  }

  /** A string of symbols decodes exactly when its last block may have that length. */
  lemma {:induction false} DecodeSymbols(s: string)
    requires AllSymbols(s)
    ensures DecodeBlocks(Padded(s)) ==
            if |s| % 8 == 0 || BlockLength(|s| % 8) then Some(Group(Flatten(Values(s), 5), 8)) else None
  {
    hide Group, Flatten, Values, DecodeBlock;
    if |s| >= 8 {
      FirstBlock(s);
      DecodeSymbols(s[8..]);
    } else if s != [] {
      LastBlock(s);
    } else {
      NoSymbols();
    }
  }

  lemma NoSymbols()
    ensures Group(Flatten(Values([]), 5), 8) == [] && DecodeBlocks(Padded([])) == Some([])
  {
  }

  lemma {:induction false} FlattenSplit(a: seq<nat>, b: seq<nat>, n: nat)
    ensures Flatten(a + b, n) == Flatten(a, n) + Flatten(b, n)
  {
    if a == [] {
      assert a + b == b;
    } else {
      FlattenSplit(a[1..], b, n);
      assert (a + b)[1..] == a[1..] + b && (a + b)[0] == a[0];
      assert Flatten(a + b, n) == BitsOf(a[0], n) + Flatten(a[1..] + b, n);
      hide BitsOf;
      ConcatAssociates(BitsOf(a[0], n), Flatten(a[1..], n), Flatten(b, n));
    }
  }

  lemma DisplayIsSymbols(bytes: seq<nat>)
    ensures Display(bytes) == SymbolText(bytes)
  {
    FlattenOfGroup(PaddedBits(bytes), 5);
    assert Pow2(5) == 32;
    SymbolsValues(Group(PaddedBits(bytes), 5));
    if SymbolText(bytes) != [] {
      LastIsNotPad(SymbolText(bytes));
    }
    TrimPadding(SymbolText(bytes), (8 - |SymbolText(bytes)| % 8) % 8);
  }

  /**
    Any `k` leading symbols of a displayed digest parse exactly when `k` leaves a last block of a
    valid length, and then give the first `5 * k / 8` bytes.
   */
  lemma PrefixParses(bytes: seq<nat>, k: nat)
    requires Below(bytes, 256) && 0 < k <= |Display(bytes)|
    ensures 5 * k / 8 <= |bytes|
    ensures Parse(Display(bytes)[..k]) == if k % 8 == 0 || BlockLength(k % 8) then Some(bytes[..5 * k / 8]) else None
  {
    DisplayIsSymbols(bytes);
    var bits := PaddedBits(bytes);
    var values := Group(bits, 5);
    FlattenOfGroup(bits, 5);
    assert Pow2(5) == 32 && Pow2(8) == 256;
    SymbolsValues(values);
    var text := Display(bytes)[..k];
    assert Values(text) == values[..k];
    DecodeSymbols(text);
    FlattenPrefix(values, 5, k);
    GroupPrefix(bits, 8, 5 * k);
    var tail := bits[|Flatten(bytes, 8)|..];
    assert bits == Flatten(bytes, 8) + tail;
    GroupOfFlatten(bytes, tail, 8);
  }

  /** Parsing what is displayed gives the bytes back. */
  lemma ParseDisplay(bytes: seq<nat>)
    requires bytes != [] && Below(bytes, 256)
    ensures Parse(Display(bytes)) == Some(bytes)
  {
    TextLength(bytes);
    PrefixParses(bytes, |Display(bytes)|);
    assert Display(bytes)[..|Display(bytes)|] == Display(bytes);
    assert bytes[..|bytes|] == bytes;
  }

  /** The displayed text has just enough symbols for the bytes. */
  lemma TextLength(bytes: seq<nat>)
    ensures var k := |Display(bytes)|;
            && (bytes != [] ==> k > 0) && 5 * k / 8 == |bytes|
            && (k % 8 == 0 || BlockLength(k % 8))
  {
    hide Display;
    DisplayLength(bytes);
  }

  lemma DisplayLength(bytes: seq<nat>)
    ensures 8 * |bytes| <= 5 * |Display(bytes)| < 8 * |bytes| + 5
  {
    hide Group, Flatten;
    DisplayIsSymbols(bytes);
    FlattenLength(bytes, 8);
    FlattenOfGroup(PaddedBits(bytes), 5);
  }

  /** A full digest string keeps its padding; it parses to the same bytes. */
  lemma ParseEncode(bytes: seq<nat>)
    requires bytes != [] && Below(bytes, 256)
    ensures Parse(Encode(bytes)) == Some(bytes)
  {
    hide SymbolText, DecodeBlocks;
    TextLength(bytes);
    DisplayIsSymbols(bytes);
    ParseDisplay(bytes);
    PaddedOnce(SymbolText(bytes));
  }

  lemma PaddedOnce(text: string)
    ensures text + Padding((8 - |text| % 8) % 8) == Padded(text)
    ensures Padded(Padded(text)) == Padded(text)
  {
  }

  // ----- Full digests -----

  const DIGEST_SIZE: nat := 32

  predicate IsFull(bytes: seq<nat>) { |bytes| == DIGEST_SIZE }

  /** Of the symbols of a digest, only all of them together parse to a full digest. */
  lemma OnlyWholeTextIsFull(bytes: seq<nat>, k: nat)
    requires Below(bytes, 256) && IsFull(bytes) && 0 < k <= |Display(bytes)|
    ensures var parsed := Parse(Display(bytes)[..k]);
            (parsed.Some? && IsFull(parsed.value)) <==> k == |Display(bytes)|
    ensures Parse(Display(bytes)) == Some(bytes)
  {
    hide Display, Parse;
    DisplayLength(bytes);
    PrefixParses(bytes, k);
    ParseDisplay(bytes);
    assert Display(bytes)[..|Display(bytes)|] == Display(bytes);
  }

  /** Different partial digests are displayed differently. */
  lemma DisplayIsInjective(a: seq<nat>, b: seq<nat>)
    requires Below(a, 256) && Below(b, 256) && a != [] && b != [] && Display(a) == Display(b)
    ensures a == b
  {
    ParseDisplay(a);
    ParseDisplay(b);
  }

  // ----- What is not a digest -----

  lemma {:induction false} TrimKeeps(s: string, i: nat)
    requires i < |s| && s[i] != PAD
    ensures i < |TrimEnd(s)| && TrimEnd(s)[i] == s[i]
  {
    if s[|s| - 1] == PAD {
      TrimKeeps(s[..|s| - 1], i);
    }
  }

  lemma {:induction false} BadBlockFails(s: string, i: nat)
    requires |s| % 8 == 0 && i < |s| && s[i] != PAD && SymbolValue(s[i]).None?
    ensures DecodeBlocks(s).None?
    decreases |s|
  {
    if i < 8 {
      TrimKeeps(s[..8], i);
      assert DecodeBlock(s[..8]).None?;
    } else {
      BadBlockFails(s[8..], i - 8);
    }
  }

  /** The empty text, and any text with a character that is neither a symbol nor padding, is rejected. */
  lemma BadTextFails(s: string)
    requires s == [] || exists i :: 0 <= i < |s| && s[i] !in "ABCDEFGHIJKLMNOPQRSTUVWXYZ234567="
    ensures Parse(s).None?
  {
    if s != [] {
      var i :| 0 <= i < |s| && s[i] !in "ABCDEFGHIJKLMNOPQRSTUVWXYZ234567=";
      var table, all := "ABCDEFGHIJKLMNOPQRSTUVWXYZ234567", "ABCDEFGHIJKLMNOPQRSTUVWXYZ234567=";
      assert all == table + "=";
      OnlySymbols(s[i]);
      assert Padded(s)[i] == s[i];
      BadBlockFails(Padded(s), i);
    }
  }

  lemma OneMoreBit(b: seq<bool>, last: bool)
    ensures ValueOf(b + [last]) == 2 * ValueOf(b) + (if last then 1 else 0)
  {
    assert (b + [last])[..|b|] == b;
  }

  lemma FiveBits(a: bool, b: bool, c: bool, d: bool, e: bool)
    ensures ValueOf([a, b, c, d, e]) == (if a then 16 else 0) + (if b then 8 else 0) + (if c then 4 else 0)
                                        + (if d then 2 else 0) + (if e then 1 else 0)
  {
    hide ValueOf;
    ThreeBits(a, b, c);
    OneMoreBit([a, b, c], d);
    OneMoreBit([a, b, c, d], e);
    assert [a, b, c] + [d] == [a, b, c, d] && [a, b, c, d] + [e] == [a, b, c, d, e];
  }

  lemma ThreeBits(a: bool, b: bool, c: bool)
    ensures ValueOf([a, b, c]) == (if a then 4 else 0) + (if b then 2 else 0) + (if c then 1 else 0)
  {
    var none: seq<bool> := [];
    assert ValueOf(none) == 0;
    hide ValueOf;
    OneMoreBit(none, a);
    OneMoreBit([a], b);
    OneMoreBit([a, b], c);
    assert none + [a] == [a] && [a] + [b] == [a, b] && [a, b] + [c] == [a, b, c];
  }

  lemma BitsOfF()
    ensures BitsOf(102, 8) == [false, true, true, false, false, true, true, false]
  {
    assert BitsOf(0, 1) == [false] && BitsOf(1, 2) == [false, true] && BitsOf(3, 3) == [false, true, true];
    assert BitsOf(6, 4) == [false, true, true, false] && BitsOf(12, 5) == [false, true, true, false, false];
    assert BitsOf(25, 6) == [false, true, true, false, false, true];
    assert BitsOf(51, 7) == [false, true, true, false, false, true, true];
  }

  lemma PaddedBitsOfF()
    ensures PaddedBits([102]) == [false, true, true, false, false] + [true, true, false, false, false]
  {
    var none: seq<nat> := [];
    BitsOfF();
    assert [102][1..] == none;
    assert Flatten([102], 8) == BitsOf(102, 8);
    hide BitsOf, Flatten;
  }

  lemma TwoGroups(a: seq<bool>, b: seq<bool>)
    requires |a| == |b| == 5
    ensures Group(a + b, 5) == [ValueOf(a), ValueOf(b)]
  {
    var none: seq<bool> := [];
    assert (a + b)[..5] == a && (a + b)[5..] == b && b[..5] == b && b[5..] == none;
    assert Group(none, 5) == [];
    assert Group(b, 5) == [ValueOf(b)];
  }

  lemma TextOfF()
    ensures SymbolText([102]) == "MY"
  {
    PaddedBitsOfF();
    TwoGroups([false, true, true, false, false], [true, true, false, false, false]);
    FiveBits(false, true, true, false, false);
    FiveBits(true, true, false, false, false);
    assert Group(PaddedBits([102]), 5) == [12, 24];
    hide PaddedBits, Group, ValueOf;
    assert SymbolOf(12) == 'M' && SymbolOf(24) == 'Y';
  }

  /** The letter f, as in section 10 of RFC 4648: most significant bits first. */
  lemma TestVector()
    ensures Display([102]) == "MY" && Encode([102]) == "MY======"
  {
    TextOfF();
    hide SymbolText, TrimEnd;
    assert Padding(6) == "======" && "MY" + "======" == "MY======";
    TrimPadding("MY", 6);
  }
}
