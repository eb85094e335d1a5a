/**
 * escape_as_identifier (vapi/cutils.c): a reversible escaping of an arbitrary
 * C string into a C identifier, which therefore obeys the character rules of
 * D-Bus object-path elements and member names. It does not obey their length
 * limit: D-Bus caps member, interface and bus names at 255 bytes, and escaping
 * can triple a name's length (EscapeCanExceedNameLimit).
 *
 * Letters are always kept, digits are kept except in first position, and every
 * other byte becomes '_' followed by two lower-case hex digits. The empty
 * string becomes "_".
 */
module Identifier {

  import opened Wrappers

  /** An unsigned byte. A C string is a sequence of non-zero bytes; its NUL
      terminator is the end of the sequence. */
  type Byte = b: int | 0 <= b < 256

  predicate NulFree(s: seq<Byte>) {
    forall i | 0 <= i < |s| :: s[i] != 0
  }

  const Underscore: Byte := '_' as int

  predicate IsLower(c: Byte) { 'a' as int <= c <= 'z' as int }
  predicate IsUpper(c: Byte) { 'A' as int <= c <= 'Z' as int }
  predicate IsDigit(c: Byte) { '0' as int <= c <= '9' as int }
  predicate IsAlpha(c: Byte) { IsLower(c) || IsUpper(c) }

  /** The characters of a C identifier: [A-Za-z0-9_]. */
  predicate IsIdentChar(c: Byte) { IsAlpha(c) || IsDigit(c) || c == Underscore }

  /** A non-empty C identifier: identifier characters only, not starting with a digit. */
  predicate IsIdentifier(s: seq<Byte>) {
    |s| > 0 && !IsDigit(s[0]) && forall i | 0 <= i < |s| :: IsIdentChar(s[i])
  }

  /** _esc_ident_bad: must byte `c` be escaped, `isFirst` telling whether it opens the name? */
  function IsBad(c: Byte, isFirst: bool): (bad: bool)
    ensures !bad <==> IsAlpha(c) || (IsDigit(c) && !isFirst)
    ensures c == Underscore ==> bad
  {
    (c < 'a' as int || c > 'z' as int) &&
    (c < 'A' as int || c > 'Z' as int) &&
    (c < '0' as int || c > '9' as int || isFirst)
  }

  predicate IsHexDigit(c: Byte) { IsDigit(c) || 'a' as int <= c <= 'f' as int }

  /** The value of a lower-case hex digit. */
  function HexValue(c: Byte): (v: int)
    requires IsHexDigit(c)
    ensures 0 <= v < 16
  {
    if IsDigit(c) then c - '0' as int else c - 'a' as int + 10
  }

  /** One lower-case hex digit, as printed by "%x". */
  function HexDigit(n: int): (c: Byte)
    requires 0 <= n < 16
    ensures IsHexDigit(c) && HexValue(c) == n
  {
    if n < 10 then '0' as int + n else 'a' as int + (n - 10)
  }

  /** The escape of one bad byte: "_%02x" applied to the unsigned byte value. */
  function EscapeByte(b: Byte): (r: seq<Byte>)
    ensures |r| == 3 && r[0] == Underscore
    ensures IsHexDigit(r[1]) && IsHexDigit(r[2])
    ensures 16 * HexValue(r[1]) + HexValue(r[2]) == b
  {
    [Underscore, HexDigit(b / 16), HexDigit(b % 16)]
  }

  /** What byte `c` contributes to the output: itself when good, its escape when bad. */
  function Piece(c: Byte, isFirst: bool): seq<Byte>
  {
    if IsBad(c, isFirst) then EscapeByte(c) else [c]
  }

  /** Number of bad bytes in `s`, whose first byte opens the name iff `first`. */
  function BadCount(s: seq<Byte>, first: bool): nat
  {
    if s == [] then 0
    else (if IsBad(s[0], first) then 1 else 0) + BadCount(s[1..], false)
  }

  /** The escape of `s` without the empty-name special case; `first` tells
      whether s[0] opens the name (and so whether a leading digit is bad). */
  function EscapeRun(s: seq<Byte>, first: bool): seq<Byte>
  {
    if s == [] then [] else Piece(s[0], first) + EscapeRun(s[1..], false)
  }

  /** escape_as_identifier as a value: "" becomes "_", anything else its escape. */
  function Escape(s: seq<Byte>): (r: seq<Byte>)
    ensures IsIdentifier(r) && NulFree(r)
    ensures s == [] <==> r == [Underscore]
  {
    if s == [] then [Underscore]
    else
      EscapeRunIdentifier(s, true);
      EscapeRun(s, true)
  }

  // ---------------------------------------------------------------------------
  // Facts about the specification

  /** The escape uses identifier characters only; a name does not escape to a
      leading digit, and a non-empty one does not escape to "_". */
  lemma {:induction false} EscapeRunIdentifier(s: seq<Byte>, first: bool)
    ensures forall i | 0 <= i < |EscapeRun(s, first)| :: IsIdentChar(EscapeRun(s, first)[i])
    ensures first && s != [] ==> !IsDigit(EscapeRun(s, first)[0])
    ensures s != [] ==> EscapeRun(s, first) != [Underscore]
  {
    if s != [] {
      var p, rest := Piece(s[0], first), EscapeRun(s[1..], false);
      EscapeRunIdentifier(s[1..], false);
      assert EscapeRun(s, first) == p + rest;
      if IsBad(s[0], first) {
        assert |p| == 3 && forall i | 0 <= i < 3 :: IsIdentChar(p[i]);
      } else {
        assert p == [s[0]] && s[0] != Underscore;
        assert EscapeRun(s, first)[0] == s[0];
      }
    }
  }

  /** The escape is one byte per good byte and three per bad byte. */
  lemma {:induction false} EscapeRunLength(s: seq<Byte>, first: bool)
    ensures |EscapeRun(s, first)| == |s| + 2 * BadCount(s, first)
  {
    if s != [] {
      EscapeRunLength(s[1..], false);
    }
  }

  /** At most every byte is bad. */
  lemma {:induction false} BadCountBound(s: seq<Byte>, first: bool)
    ensures BadCount(s, first) <= |s|
  {
    if s != [] {
      BadCountBound(s[1..], false);
    }
  }

  /** A run of bytes that are neither letters nor digits is bad throughout. */
  lemma {:induction false} BadCountAllBad(s: seq<Byte>, first: bool)
    requires forall i | 0 <= i < |s| :: !IsAlpha(s[i]) && !IsDigit(s[i])
    ensures BadCount(s, first) == |s|
  {
    if s != [] {
      assert !IsAlpha(s[0]) && !IsDigit(s[0]);
      assert forall i | 0 <= i < |s[1..]| :: s[1..][i] == s[i + 1];
      BadCountAllBad(s[1..], false);
    }
  }

  /** The maximum length of a D-Bus member, interface or bus name, in bytes
      (section "Valid Names" of the D-Bus Specification). */
  const MaxNameLength := 255

  /** The escape of a name is at least as long as the name and at most three
      times as long, so a name of at most 85 bytes fits in a D-Bus name. */
  lemma EscapeLengthBounds(s: seq<Byte>)
    requires s != []
    ensures |s| <= |Escape(s)| <= 3 * |s|
    ensures |s| <= MaxNameLength / 3 ==> |Escape(s)| <= MaxNameLength
  {
    EscapeRunLength(s, true);
    BadCountBound(s, true);
  }

  /** The character rules do not bound the length: 86 spaces escape to 258
      bytes, more than a D-Bus member, interface or bus name may have. */
  lemma EscapeCanExceedNameLimit(s: seq<Byte>)
    requires s == seq(86, _ => ' ' as int)
    ensures NulFree(s) && |Escape(s)| == 258 > MaxNameLength
  {
    EscapeRunLength(s, true);
    BadCountAllBad(s, true);
  }

  /** Escaping a concatenation escapes each part; only the first part can open the name. */
  lemma {:induction false} EscapeRunAppend(s: seq<Byte>, t: seq<Byte>, first: bool)
    ensures EscapeRun(s + t, first) == EscapeRun(s, first) + EscapeRun(t, first && s == [])
  {
    if s == [] {
      assert [] + t == t;
    } else {
      assert (s + t)[0] == s[0];
      assert (s + t)[1..] == s[1..] + t;
      EscapeRunAppend(s[1..], t, false);
    }
  }

  /** Escaping one more byte appends that byte's piece. */
  lemma EscapeRunSnoc(s: seq<Byte>, c: Byte, first: bool)
    ensures EscapeRun(s + [c], first) == EscapeRun(s, first) + Piece(c, first && s == [])
  {
    EscapeRunAppend(s, [c], first);
    assert [c][1..] == [];
  }

  /** A run of good bytes is copied verbatim. */
  lemma {:induction false} CleanRunUnchanged(s: seq<Byte>, first: bool)
    requires forall i | 0 <= i < |s| :: !IsBad(s[i], first && i == 0)
    ensures EscapeRun(s, first) == s
  {
    if s != [] {
      assert !IsBad(s[0], first && 0 == 0);
      forall i | 0 <= i < |s[1..]|
        ensures !IsBad(s[1..][i], false && i == 0)
      {
        assert !IsBad(s[i + 1], first && i + 1 == 0);
      }
      CleanRunUnchanged(s[1..], false);
    }
  }

  /** The clean fast path: a non-empty name with no bad byte escapes to itself. */
  lemma CleanNameUnchanged(s: seq<Byte>)
    requires s != []
    requires forall i | 0 <= i < |s| :: !IsBad(s[i], i == 0)
    ensures Escape(s) == s
  {
    CleanRunUnchanged(s, true);
  }

  /** Extending a prefix of good bytes extends the escape verbatim. */
  lemma GoodStep(s: seq<Byte>, i: nat)
    requires i < |s| && !IsBad(s[i], i == 0)
    ensures EscapeRun(s[..i + 1], true) == EscapeRun(s[..i], true) + [s[i]]
  {
    assert s[..i + 1] == s[..i] + [s[i]];
    EscapeRunSnoc(s[..i], s[i], true);
  }

  /** Extending a prefix by a bad byte appends that byte's escape. */
  lemma BadStep(s: seq<Byte>, i: nat)
    requires i < |s| && IsBad(s[i], i == 0)
    ensures EscapeRun(s[..i + 1], true) == EscapeRun(s[..i], true) + EscapeByte(s[i])
  {
    assert s[..i + 1] == s[..i] + [s[i]];
    EscapeRunSnoc(s[..i], s[i], true);
  }

  // ---------------------------------------------------------------------------
  // Reversibility

  /** Decodes an escaped run: '_' introduces two hex digits, any other byte stands for itself. */
  function DecodeRun(r: seq<Byte>): Option<seq<Byte>>
    decreases |r|
  {
    if r == [] then Some([])
    else if r[0] != Underscore then
      match DecodeRun(r[1..])
      case None => None
      case Some(t) => Some([r[0]] + t)
    else if |r| < 3 || !IsHexDigit(r[1]) || !IsHexDigit(r[2]) then None
    else
      match DecodeRun(r[3..])
      case None => None
      case Some(t) => Some([16 * HexValue(r[1]) + HexValue(r[2])] + t)
  }

  /** The inverse of Escape: "_" decodes to the empty name. */
  function Unescape(r: seq<Byte>): Option<seq<Byte>>
  {
    if r == [Underscore] then Some([]) else DecodeRun(r)
  }

  /** Decoding a literal byte: any byte but '_' stands for itself. */
  lemma DecodeLiteral(c: Byte, rest: seq<Byte>, t: seq<Byte>)
    requires c != Underscore && DecodeRun(rest) == Some(t)
    ensures DecodeRun([c] + rest) == Some([c] + t)
  {
    assert ([c] + rest)[1..] == rest;
  }

  /** Decoding an escaped byte: "_hh" stands for the byte with hex value hh. */
  lemma DecodeEscapeByte(b: Byte, rest: seq<Byte>, t: seq<Byte>)
    requires DecodeRun(rest) == Some(t)
    ensures DecodeRun(EscapeByte(b) + rest) == Some([b] + t)
  {
    var e := EscapeByte(b);
    var r := e + rest;
    assert r[0] == Underscore && r[1] == e[1] && r[2] == e[2];
    assert r[3..] == rest;
  }

  /** Decoding an escaped run gives back the run. */
  lemma {:induction false} RoundTrip(s: seq<Byte>, first: bool)
    ensures DecodeRun(EscapeRun(s, first)) == Some(s)
  {
    if s != [] {
      var rest := EscapeRun(s[1..], false);
      RoundTrip(s[1..], false);
      assert EscapeRun(s, first) == Piece(s[0], first) + rest;
      if IsBad(s[0], first) {
        DecodeEscapeByte(s[0], rest, s[1..]);
      } else {
        DecodeLiteral(s[0], rest, s[1..]);
      }
      assert [s[0]] + s[1..] == s;
    }
  }

  /** escape_as_identifier is reversible. */
  lemma UnescapeEscape(s: seq<Byte>)
    ensures Unescape(Escape(s)) == Some(s)
  {
    RoundTrip(s, true);
  }

  /** escape_as_identifier preserves distinctness. */
  lemma EscapeInjective(s: seq<Byte>, t: seq<Byte>)
    requires Escape(s) == Escape(t)
    ensures s == t
  {
    UnescapeEscape(s);
    UnescapeEscape(t);
  }

  /** Escaping is not idempotent: an escaped name containing '_' is escaped again. */
  lemma EscapeNotIdempotent()
    ensures Escape([Underscore]) == [Underscore, '5' as int, 'f' as int]
    ensures Escape(Escape([Underscore])) != Escape([Underscore])
  {
    var e := Escape([Underscore]);
    assert e == Piece(Underscore, true) + EscapeRun([], false) by {
      assert [Underscore][1..] == [];
    }
    assert e[0] == Underscore && e[1..] == [53, 102];
    assert Escape(e) == EscapeByte(Underscore) + EscapeRun(e[1..], false);
    assert |Escape(e)| > 3 by { EscapeRunLength(e, true); }
  }

  // ---------------------------------------------------------------------------
  // The imperative function: a counting loop, then a run-copying loop

  /** The first loop: whether any byte is bad, and the length of the escaped name
      (1 per good byte, 3 per bad byte). */
  method ScanName(name: seq<Byte>) returns (bad: bool, len: nat)
    ensures bad <==> exists i | 0 <= i < |name| :: IsBad(name[i], i == 0)
    ensures len == |name| + 2 * BadCount(name, true)
    ensures name != [] ==> len == |Escape(name)|
  {
    bad, len := false, 0;
    var i := 0;
    while i < |name|
      invariant 0 <= i <= |name|
      invariant bad <==> exists j | 0 <= j < i :: IsBad(name[j], j == 0)
      invariant len == |EscapeRun(name[..i], true)|
    {
      if IsBad(name[i], i == 0) {
        BadStep(name, i);
        bad := true;
        len := len + 3;
      } else {
        GoodStep(name, i);
        len := len + 1;
      }
      i := i + 1;
    }
    assert name[..i] == name;
    EscapeRunLength(name, true);
  }

  lemma SliceSnoc(s: seq<Byte>, a: nat, b: nat)
    requires a <= b < |s|
    ensures s[a..b + 1] == s[a..b] + [s[b]]
  {
  }

  /** One step of the copying loop: the escape of name[..i + 1] is what was
      copied, then the pending good run, then the new byte's piece. */
  lemma CopyStep(name: seq<Byte>, firstOk: nat, i: nat, op: seq<Byte>)
    requires firstOk <= i < |name|
    requires EscapeRun(name[..i], true) == op + name[firstOk..i]
    ensures IsBad(name[i], i == 0) ==>
      EscapeRun(name[..i + 1], true) == op + name[firstOk..i] + EscapeByte(name[i])
    ensures !IsBad(name[i], i == 0) ==>
      EscapeRun(name[..i + 1], true) == op + name[firstOk..i + 1]
  {
    if IsBad(name[i], i == 0) {
      BadStep(name, i);
    } else {
      GoodStep(name, i);
      SliceSnoc(name, firstOk, i);
    }
  }

  /** The second loop: good runs are copied verbatim, each bad byte is escaped.
      `firstOk` is the first good byte not yet copied. */
  method CopyRuns(name: seq<Byte>) returns (op: seq<Byte>)
    ensures op == EscapeRun(name, true)
  {
    op := [];
    var firstOk, i := 0, 0;
    while i < |name|
      invariant 0 <= firstOk <= i <= |name|
      invariant EscapeRun(name[..i], true) == op + name[firstOk..i]
    {
      CopyStep(name, firstOk, i, op);
      if IsBad(name[i], i == 0) {
        if firstOk < i {
          op := op + name[firstOk..i];
        }
        op := op + EscapeByte(name[i]);
        firstOk := i + 1;
      }
      i := i + 1;
    }
    if firstOk < i {
      op := op + name[firstOk..i];
    }
    assert name[..i] == name;
  }

  /** escape_as_identifier: the empty-name and clean-name fast paths, then the escaping loop. */
  method EscapeAsIdentifier(name: seq<Byte>) returns (r: seq<Byte>)
    requires NulFree(name)
    ensures r == Escape(name)
  {
    if name == [] {
      return [Underscore];
    }
    var bad, len := ScanName(name);
    if !bad {
      CleanNameUnchanged(name);
      return name;
    }
    r := CopyRuns(name);
    assert |r| == len;
  }

  /** The end of the worked example below: "_xyz\x01\xff" after the first byte. */
  lemma WorkedExampleTail(s: seq<Byte>)
    requires s == [95, 120, 121, 122, 1, 255]
    ensures EscapeRun(s, false) == [95, 53, 102, 120, 121, 122, 95, 48, 49, 95, 102, 102]
  {
    assert EscapeRun(s[5..], false) == [95, 102, 102] + EscapeRun(s[6..], false) by {
      assert s[5..][0] == 255 && s[5..][1..] == s[6..];
    }
    assert EscapeRun(s[4..], false) == [95, 48, 49] + EscapeRun(s[5..], false) by {
      assert s[4..][0] == 1 && s[4..][1..] == s[5..];
    }
    assert EscapeRun(s[3..], false) == [122] + EscapeRun(s[4..], false) by {
      assert s[3..][0] == 122 && s[3..][1..] == s[4..];
    }
    assert EscapeRun(s[2..], false) == [121] + EscapeRun(s[3..], false) by {
      assert s[2..][0] == 121 && s[2..][1..] == s[3..];
    }
    assert EscapeRun(s[1..], false) == [120] + EscapeRun(s[2..], false) by {
      assert s[1..][0] == 120 && s[1..][1..] == s[2..];
    }
    assert EscapeRun(s, false) == [95, 53, 102] + EscapeRun(s[1..], false) by {
      assert s[0] == 95;
    }
    assert s[6..] == [];
  }

  /** The start of the worked example below: "0123abc" as the opening of a name. */
  lemma WorkedExampleHead(s: seq<Byte>)
    requires s == [48, 49, 50, 51, 97, 98, 99]
    ensures EscapeRun(s, true) == [95, 51, 48, 49, 50, 51, 97, 98, 99]
  {
    assert EscapeRun(s[6..], false) == [99] + EscapeRun(s[7..], false) by {
      assert s[6..][0] == 99 && s[6..][1..] == s[7..];
    }
    assert EscapeRun(s[5..], false) == [98] + EscapeRun(s[6..], false) by {
      assert s[5..][0] == 98 && s[5..][1..] == s[6..];
    }
    assert EscapeRun(s[4..], false) == [97] + EscapeRun(s[5..], false) by {
      assert s[4..][0] == 97 && s[4..][1..] == s[5..];
    }
    assert EscapeRun(s[3..], false) == [51] + EscapeRun(s[4..], false) by {
      assert s[3..][0] == 51 && s[3..][1..] == s[4..];
    }
    assert EscapeRun(s[2..], false) == [50] + EscapeRun(s[3..], false) by {
      assert s[2..][0] == 50 && s[2..][1..] == s[3..];
    }
    assert EscapeRun(s[1..], false) == [49] + EscapeRun(s[2..], false) by {
      assert s[1..][0] == 49 && s[1..][1..] == s[2..];
    }
    assert EscapeRun(s, true) == [95, 51, 48] + EscapeRun(s[1..], false) by {
      assert s[0] == 48;
    }
    assert s[7..] == [];
  }

  /** The worked example of the documentation comment:
      "0123abc_xyz\x01\xff" escapes to "_30123abc_5fxyz_01_ff". */
  lemma WorkedExample(name: seq<Byte>)
    requires name == [48, 49, 50, 51, 97, 98, 99, 95, 120, 121, 122, 1, 255]
    ensures Escape(name)
         == [95, 51, 48, 49, 50, 51, 97, 98, 99, 95, 53, 102, 120, 121, 122, 95, 48, 49, 95, 102, 102]
  {
    var head, tail := name[..7], name[7..];
    assert name == head + tail;
    EscapeRunAppend(head, tail, true);
    WorkedExampleHead(head);
    WorkedExampleTail(tail);
  }
}
