/** The runtime string buffer `yb_string_t` of the generated code's support
    library: a byte buffer with a length and an "owns its data" flag, and the
    operations that create, compare, convert and rewrite it in place.

    A buffer is an object of class `Str`; a NULL `yb_string_t` is `null`.
    Freeing is not modelled: ownership is kept only as the `owned` flag, and
    the data pointer only as whether it is NULL (`hasData`). The
    C strings the API takes (`const char*`) are given as the bytes before
    their terminator; a NULL C string is `None`. */
module YbString {
  import opened Base

  /** Status codes and null sentinels of the support library. */
  const YB_OK: int := 0
  const YB_FAIL: int := -1
  const INT64_MIN: int := -0x8000_0000_0000_0000
  const YB_INT_NULL: int := INT64_MIN

  lemma SentinelValues()
    ensures YB_OK == 0 && YB_FAIL == -1
    ensures YB_INT_NULL == -9223372036854775808
  {
  }

  class Str {
    /** The content bytes `data[0..len)`. */
    var data: Bytes
    /** YB_STRING_FLAG_OWN_DATA: the buffer owns (and would free) its bytes. */
    var owned: bool
    /** The data pointer is not NULL. A given byte string or C string is
        taken as a non-NULL pointer, and every allocation as succeeding. */
    var hasData: bool

    /** yb_string_new: an empty buffer that owns nothing, with a NULL data
        pointer. */
    constructor ()
      ensures data == [] && !owned && !hasData
    {
      data := [];
      owned := false;
      hasData := false;
    }
  }

  // ---------------------------------------------------------------------
  // Creation

  /** yb_string_from_ref: a buffer borrowing `str`. */
  method FromRef(str: Bytes) returns (r: Str)
    ensures fresh(r) && r.data == str && !r.owned && r.hasData
  {
    r := new Str();
    r.data := str;
    r.hasData := true;
  }

  /** yb_string_from: a buffer owning a copy of `str`. */
  method From(str: Bytes) returns (r: Str)
    ensures fresh(r) && r.data == str && r.owned && r.hasData
  {
    r := FromRef(str);
    r.owned := true;
  }

  /** yb_string_from_cstr as written: it calls the zero-argument
      `yb_string_new`, which ignores the arguments, so the result is empty. */
  method FromCstr(str: Bytes) returns (r: Str)
    ensures fresh(r) && r.data == [] && !r.owned && !r.hasData
  {
    r := new Str();
  }

  /** yb_string_from_cstr as its documentation promises: a copy of `str`. */
  method FromCstrFixed(str: Bytes) returns (r: Str)
    ensures fresh(r) && r.data == str && r.owned && r.hasData
  {
    r := From(str);
  }

  /** yb_string_from_cstr_ref: a buffer borrowing the C string's bytes. */
  method FromCstrRef(str: Bytes) returns (r: Str)
    ensures fresh(r) && r.data == str && !r.owned && r.hasData
  {
    r := FromRef(str);
  }

  /** yb_string_clone as written: NULL for NULL, otherwise an empty buffer
      (the same zero-argument `yb_string_new` call). */
  method Clone(s: Str?) returns (r: Str?)
    ensures s == null ==> r == null
    ensures s != null ==> r != null && fresh(r) && r.data == [] && !r.owned && !r.hasData
  {
    if s == null {
      return null;
    }
    r := new Str();
  }

  /** yb_string_clone as its documentation promises: an owned copy. */
  method CloneFixed(s: Str?) returns (r: Str?)
    ensures s == null ==> r == null
    ensures s != null ==> r != null && fresh(r) && r.data == s.data && r.owned && r.hasData
  {
    if s == null {
      return null;
    }
    r := From(s.data);
  }

  // ---------------------------------------------------------------------
  // In-place updates

  /** yb_string_clear: the buffer becomes empty and owns nothing, and its
      data pointer is NULL. */
  method Clear(s: Str?)
    modifies s
    ensures s != null ==> s.data == [] && !s.owned && !s.hasData
  {
    if s == null {
      return;
    }
    s.data := [];
    s.owned := false;
    s.hasData := false;
  }

  /** yb_string_move: `d` takes over the content and flag of `s`, and `s` is
      left empty. Nothing happens if either is NULL; if both are the same
      buffer it ends up empty. */
  method Move(s: Str?, d: Str?)
    modifies s, d
    ensures s == null || d == null ==>
      (s != null ==> s.data == old(s.data) && s.owned == old(s.owned) && s.hasData == old(s.hasData)) &&
      (d != null ==> d.data == old(d.data) && d.owned == old(d.owned) && d.hasData == old(d.hasData))
    ensures s != null && d != null && s != d ==>
      d.data == old(s.data) && d.owned == old(s.owned) && d.hasData == old(s.hasData) &&
      s.data == [] && !s.owned && !s.hasData
    ensures s != null && s == d ==> s.data == [] && !s.owned && !s.hasData
  {
    if s == null || d == null {
      return;
    }
    d.data := s.data;
    d.owned := s.owned;
    d.hasData := s.hasData;
    s.data := [];
    s.owned := false;
    s.hasData := false;
  }

  /** yb_string_length: 0 for NULL. */
  function Length(s: Str?): (n: int)
    reads s
    ensures n >= 0
    ensures s == null ==> n == 0
    ensures s != null ==> n == |s.data|
  {
    if s == null then 0 else |s.data|
  }

  /** yb_string_data: NULL (None) for a NULL buffer and for a buffer whose
      data pointer is NULL (new, cleared or moved from); otherwise the
      content. */
  function Data(s: Str?): (d: Option<Bytes>)
    reads s
    ensures d == None <==> s == null || !s.hasData
    ensures d.Some? ==> s != null && d.value == s.data
  {
    if s == null || !s.hasData then None else Some(s.data)
  }

  /** A buffer just made by yb_string_new has no data to return, and one
      made from bytes returns exactly those bytes, even when they are
      empty. */
  method DataOfNewAndFrom(str: Bytes) returns (a: Option<Bytes>, b: Option<Bytes>)
    ensures a == None && b == Some(str)
  {
    var e := new Str();
    a := Data(e);
    var f := FromRef(str);
    b := Data(f);
  }

  /** yb_string_set_data_from: the content becomes an owned copy of `data`. */
  method SetDataFrom(s: Str?, data: Bytes) returns (rc: int)
    modifies s
    ensures s == null <==> rc == YB_FAIL
    ensures s != null ==> rc == YB_OK && s.data == data && s.owned && s.hasData
  {
    if s == null {
      return YB_FAIL;
    }
    s.data := data;
    s.owned := true;
    s.hasData := true;
    rc := YB_OK;
  }

  /** yb_string_ref_data: the content becomes a borrow of `data`. */
  method RefData(s: Str?, data: Bytes) returns (rc: int)
    modifies s
    ensures s == null <==> rc == YB_FAIL
    ensures s != null ==> rc == YB_OK && s.data == data && !s.owned && s.hasData
  {
    if s == null {
      return YB_FAIL;
    }
    s.data := data;
    s.owned := false;
    s.hasData := true;
    rc := YB_OK;
  }

  /** yb_string_append_data: appending nothing succeeds and changes nothing,
      even for NULL; appending to NULL otherwise fails; otherwise the content
      grows by `data` and the buffer owns the new copy. */
  method AppendData(s: Str?, data: Bytes) returns (rc: int)
    modifies s
    ensures data == [] ==> rc == YB_OK
    ensures data == [] && s != null ==>
      s.data == old(s.data) && s.owned == old(s.owned) && s.hasData == old(s.hasData)
    ensures data != [] && s == null ==> rc == YB_FAIL
    ensures data != [] && s != null ==> rc == YB_OK && s.data == old(s.data) + data && s.owned && s.hasData
  {
    if |data| == 0 {
      return YB_OK;
    }
    if s == null {
      return YB_FAIL;
    }
    s.data := s.data + data;
    s.owned := true;
    s.hasData := true;
    rc := YB_OK;
  }

  /** yb_string_append_c_str: append the bytes of a C string. */
  method AppendCStr(s: Str?, str: Bytes) returns (rc: int)
    modifies s
    ensures str == [] ==> rc == YB_OK
    ensures str == [] && s != null ==>
      s.data == old(s.data) && s.owned == old(s.owned) && s.hasData == old(s.hasData)
    ensures str != [] && s == null ==> rc == YB_FAIL
    ensures str != [] && s != null ==> rc == YB_OK && s.data == old(s.data) + str && s.owned && s.hasData
  {
    rc := AppendData(s, str);
  }

  /** yb_string_append: NULL on either side fails; otherwise append the
      content of `s2` (which may be `s` itself). */
  method Append(s: Str?, s2: Str?) returns (rc: int)
    modifies s
    ensures s == null || s2 == null ==> rc == YB_FAIL
    ensures s != null && s2 != null ==>
      rc == YB_OK &&
      s.data == old(s.data) + old(s2.data) &&
      s.owned == (old(s.owned) || old(s2.data) != []) &&
      s.hasData == (old(s.hasData) || old(s2.data) != [])
  {
    if s == null || s2 == null {
      return YB_FAIL;
    }
    rc := AppendData(s, s2.data);
  }

  /** The range checks that yb_string_substr and yb_string_slice share. */
  predicate InRange(s: Bytes, start: int, len: int)
  {
    0 <= start && 0 <= len && start + len <= |s|
  }

  /** yb_string_substr: an owned copy of `len` bytes from `start`, or NULL for
      a NULL buffer or a range outside the content. */
  method Substr(s: Str?, start: int, len: int) returns (r: Str?)
    ensures s == null || !InRange(s.data, start, len) <==> r == null
    ensures r != null ==> fresh(r) && s != null && r.data == s.data[start..start + len] && r.owned && r.hasData
  {
    if s == null {
      return null;
    }
    if start < 0 || len < 0 || start + len > |s.data| {
      return null;
    }
    r := From(s.data[start..start + len]);
  }

  /** yb_string_slice: the same range, borrowed. */
  method Slice(s: Str?, start: int, len: int) returns (r: Str?)
    ensures s == null || !InRange(s.data, start, len) <==> r == null
    ensures r != null ==> fresh(r) && s != null && r.data == s.data[start..start + len] && !r.owned && r.hasData
  {
    if s == null {
      return null;
    }
    if start < 0 || len < 0 || start + len > |s.data| {
      return null;
    }
    r := FromRef(s.data[start..start + len]);
  }

  // ---------------------------------------------------------------------
  // Comparison

  /** Lexicographic byte order as a sign: the reference definition. */
  function Lex(a: Bytes, b: Bytes): int
  {
    if a == [] && b == [] then 0
    else if a == [] then -1
    else if b == [] then 1
    else if a[0] < b[0] then -1
    else if a[0] > b[0] then 1
    else Lex(a[1..], b[1..])
  }

  /** The sign of memcmp over the first n bytes. */
  function MemCmp(a: Bytes, b: Bytes, n: nat): int
    requires n <= |a| && n <= |b|
  {
    if n == 0 then 0
    else if a[0] < b[0] then -1
    else if a[0] > b[0] then 1
    else MemCmp(a[1..], b[1..], n - 1)
  }

  /** What both compare functions compute for two present operands: memcmp
      over the common length, then the shorter one is smaller. Only the sign
      of memcmp's value is modelled. */
  function CompareContent(a: Bytes, b: Bytes): int
  {
    var minLen := if |a| < |b| then |a| else |b|;
    var cmp := MemCmp(a, b, minLen);
    if cmp == 0 && |a| < |b| then -1
    else if cmp == 0 && |a| > |b| then 1
    else cmp
  }

  /** The code's comparison is exactly lexicographic order. */
  lemma {:induction false} CompareContentIsLex(a: Bytes, b: Bytes)
    ensures CompareContent(a, b) == Lex(a, b)
  {
    if a != [] && b != [] && a[0] == b[0] {
      CompareContentIsLex(a[1..], b[1..]);
    }
  }

  lemma {:induction false} LexZeroIffEqual(a: Bytes, b: Bytes)
    ensures Lex(a, b) == 0 <==> a == b
    ensures -1 <= Lex(a, b) <= 1
  {
    if a != [] && b != [] && a[0] == b[0] {
      LexZeroIffEqual(a[1..], b[1..]);
      if a[1..] == b[1..] {
        assert a == [a[0]] + a[1..] && b == [b[0]] + b[1..];
      }
    }
  }

  lemma {:induction false} LexAntisymmetric(a: Bytes, b: Bytes)
    ensures Lex(a, b) == -Lex(b, a)
  {
    if a != [] && b != [] && a[0] == b[0] {
      LexAntisymmetric(a[1..], b[1..]);
    }
  }

  /** A proper prefix is smaller. */
  lemma {:induction false} LexProperPrefix(a: Bytes, rest: Bytes)
    requires rest != []
    ensures Lex(a, a + rest) == -1
  {
    if a != [] {
      assert (a + rest)[1..] == a[1..] + rest;
      LexProperPrefix(a[1..], rest);
    }
  }

  /** yb_string_compare: 0 for two NULLs, NULL below everything, otherwise
      the lexicographic order of the contents. */
  function Compare(s1: Str?, s2: Str?): (r: int)
    reads s1, s2
    ensures -1 <= r <= 1
    ensures r == 0 <==> (s1 == null && s2 == null) || (s1 != null && s2 != null && s1.data == s2.data)
    ensures s1 == null && s2 != null ==> r == -1
    ensures s1 != null && s2 == null ==> r == 1
    ensures s1 != null && s2 != null ==> r == Lex(s1.data, s2.data)
  {
    if s1 == null && s2 == null then 0
    else if s1 == null then -1
    else if s2 == null then 1
    else
      CompareContentIsLex(s1.data, s2.data);
      LexZeroIffEqual(s1.data, s2.data);
      CompareContent(s1.data, s2.data)
  }

  /** yb_string_compare_cstr: the same order against a C string. */
  function CompareCstr(s1: Str?, s2: Option<Bytes>): (r: int)
    reads s1
    ensures -1 <= r <= 1
    ensures r == 0 <==> (s1 == null && s2 == None) || (s1 != null && s2 == Some(s1.data))
    ensures s1 == null && s2 != None ==> r == -1
    ensures s1 != null && s2 == None ==> r == 1
    ensures s1 != null && s2.Some? ==> r == Lex(s1.data, s2.value)
  {
    if s1 == null && s2 == None then 0
    else if s1 == null then -1
    else if s2 == None then 1
    else
      CompareContentIsLex(s1.data, s2.value);
      LexZeroIffEqual(s1.data, s2.value);
      CompareContent(s1.data, s2.value)
  }

  // ---------------------------------------------------------------------
  // Decimal parsing

  predicate IsDigit(b: bv8)
  {
    0x30 <= b <= 0x39
  }

  /** The leading run of '0'..'9' bytes. */
  function LeadingDigits(s: Bytes): (d: Bytes)
    ensures |d| <= |s| && d == s[..|d|]
    ensures forall k :: 0 <= k < |d| ==> IsDigit(d[k])
    ensures |d| < |s| ==> !IsDigit(s[|d|])
  {
    if s == [] || !IsDigit(s[0]) then [] else [s[0]] + LeadingDigits(s[1..])
  }

  /** The decimal value of a run of digit bytes. */
  function DecimalValue(d: Bytes): nat
    requires forall k :: 0 <= k < |d| ==> IsDigit(d[k])
  {
    if d == [] then 0 else DecimalValue(d[..|d| - 1]) * 10 + (d[|d| - 1] - 0x30) as int
  }

  /** The leading digit run is determined by where the first non-digit is. */
  lemma {:induction false} LeadingDigitsAt(s: Bytes, i: nat)
    requires i <= |s|
    requires forall k :: 0 <= k < i ==> IsDigit(s[k])
    requires i == |s| || !IsDigit(s[i])
    ensures LeadingDigits(s) == s[..i]
  {
    if i > 0 {
      LeadingDigitsAt(s[1..], i - 1);
      assert s[..i] == [s[0]] + s[1..][..i - 1];
    }
  }

  /** yb_string_atoi: 0 for NULL; otherwise the value of the leading digit
      run. There is no sign handling. The int64 accumulator is taken as
      unbounded. */
  method Atoi(s: Str?) returns (r: int)
    ensures s == null ==> r == 0
    ensures s != null ==> r == DecimalValue(LeadingDigits(s.data))
  {
    if s == null {
      return 0;
    }
    var data := s.data;
    var i := 0;
    r := 0;
    while i < |data|
      invariant 0 <= i <= |data|
      invariant forall k :: 0 <= k < i ==> IsDigit(data[k])
      invariant r == DecimalValue(data[..i])
    {
      if data[i] < 0x30 || data[i] > 0x39 {
        break;
      }
      assert data[..i + 1][..i] == data[..i];
      r := r * 10 + (data[i] - 0x30) as int;
      i := i + 1;
    }
    LeadingDigitsAt(data, i);
  }

  /** atoi stops at the first byte that is not a digit. */
  lemma AtoiStopsAtNonDigit(d: Bytes, c: bv8, rest: Bytes)
    requires forall k :: 0 <= k < |d| ==> IsDigit(d[k])
    requires !IsDigit(c)
    ensures DecimalValue(LeadingDigits(d + [c] + rest)) == DecimalValue(d)
  {
    var s := d + [c] + rest;
    assert s[|d|] == c;
    LeadingDigitsAt(s, |d|);
    assert s[..|d|] == d;
  }

  // ---------------------------------------------------------------------
  // Hexadecimal

  /** The lower-case hex digit of a value below 16. */
  function HexDigit(v: bv8): bv8
    requires v < 16
  {
    if v < 10 then 0x30 + v else 0x57 + v
  }

  function HighNibble(b: bv8): (v: bv8)
    ensures v < 16
  {
    b >> 4
  }

  function LowNibble(b: bv8): (v: bv8)
    ensures v < 16
  {
    b & 0xf
  }

  /** Character i of the encoding of `s`. */
  function HexCharAt(s: Bytes, i: nat): bv8
    requires i < 2 * |s|
  {
    if i % 2 == 0 then HexDigit(HighNibble(s[i / 2])) else HexDigit(LowNibble(s[i / 2]))
  }

  /** Two lower-case hex digits per byte. */
  function HexEncode(s: Bytes): (r: Bytes)
    ensures |r| == 2 * |s|
    ensures forall i :: 0 <= i < 2 * |s| ==> r[i] == HexCharAt(s, i)
  {
    seq(2 * |s|, i requires 0 <= i < 2 * |s| => HexCharAt(s, i))
  }

  /** How many bytes yb_string_to_hex encodes: byte i is encoded only while
      2*i + 3 < out_len. */
  function HexCount(len: nat, outLen: int): (k: nat)
    ensures k <= len
    ensures k == len || 2 * k + 3 >= outLen
    ensures forall i :: 0 <= i < k ==> 2 * i + 3 < outLen
  {
    var room := if outLen < 2 then 0 else (outLen - 2) / 2;
    if len < room then len else room
  }

  /** yb_string_to_hex: NULL buffer or output fails; otherwise the encoded
      prefix is written to `out` and NUL-terminated right after it; bytes
      past the terminator are untouched. `outLen` is the size the caller
      reports; the array must really have room for it and for the
      terminator at index 0. */
  method ToHex(s: Str?, out: array?<bv8>, outLen: int) returns (rc: int)
    requires out != null ==> 1 <= out.Length && outLen <= out.Length
    modifies out
    ensures s == null || out == null ==> rc == YB_FAIL
    ensures (s == null || out == null) && out != null ==> out[..] == old(out[..])
    ensures s != null && out != null ==>
      var k := HexCount(|s.data|, outLen);
      rc == YB_OK &&
      out[..2 * k] == HexEncode(s.data[..k]) &&
      out[2 * k] == 0 &&
      out[2 * k + 1..] == old(out[2 * k + 1..])
  {
    if s == null {
      return YB_FAIL;
    }
    if out == null {
      return YB_FAIL;
    }
    var k := EncodeHexInto(s.data, out, outLen);
    ghost var before := out[..];
    out[2 * k] := 0;
    assert out[..2 * k] == before[..2 * k];
    assert out[2 * k + 1..] == before[2 * k + 1..];
    rc := YB_OK;
  }

  /** The encoding loop of yb_string_to_hex: pairs of digits while the next
      pair and the terminator still fit; `k` bytes are encoded. */
  method EncodeHexInto(data: Bytes, out: array<bv8>, outLen: int) returns (k: nat)
    requires 1 <= out.Length && outLen <= out.Length
    modifies out
    ensures k == HexCount(|data|, outLen) && 2 * k < out.Length
    ensures out[..2 * k] == HexEncode(data[..k])
    ensures out[2 * k + 1..] == old(out[2 * k + 1..])
  {
    var i := 0;
    var j := 0;
    while i < |data|
      invariant 0 <= i <= |data| && j == 2 * i
      invariant forall t :: 0 <= t < i ==> 2 * t + 3 < outLen
      invariant j < out.Length
      invariant out[..j] == HexEncode(data[..i])
      invariant out[j + 1..] == old(out[j + 1..])
    {
      if j + 3 >= outLen {
        break;
      }
      var c := data[i];
      ghost var pre := out[..];
      out[j] := HexDigit(HighNibble(c));
      out[j + 1] := HexDigit(LowNibble(c));
      out[j + 2] := 0;
      assert out[..j + 2] == HexEncode(data[..i + 1]);
      assert out[j + 3..] == old(out[j + 3..]) by {
        assert out[j + 3..] == pre[j + 3..];
        assert pre[j + 3..] == pre[j + 1..][2..];
        assert old(out[j + 3..]) == old(out[j + 1..])[2..];
      }
      j := j + 2;
      i := i + 1;
    }
    k := i;
    assert k == HexCount(|data|, outLen);
  }

  /** _char2int: the value of a hex digit in either case, or -1. */
  function HexValue(c: bv8): (v: int)
    ensures -1 <= v < 16
  {
    if 0x30 <= c <= 0x39 then (c - 0x30) as int
    else if 0x61 <= c <= 0x66 then (c - 0x61) as int + 10
    else if 0x41 <= c <= 0x46 then (c - 0x41) as int + 10
    else -1
  }

  predicate AllHex(s: Bytes)
  {
    forall k :: 0 <= k < |s| ==> HexValue(s[k]) >= 0
  }

  /** The byte `(d1 << 4) | d2` for two digit values. */
  function PairByte(d1: bv8, d2: bv8): bv8
  {
    (d1 << 4) | d2
  }

  /** The byte two hex digits stand for. */
  function Pair(c1: bv8, c2: bv8): bv8
    requires HexValue(c1) >= 0 && HexValue(c2) >= 0
  {
    PairByte(HexValue(c1) as bv8, HexValue(c2) as bv8)
  }

  /** The byte of the pair starting at `s[2*t]`. */
  function PairAt(s: Bytes, t: nat): bv8
    requires 2 * t + 1 < |s| && HexValue(s[2 * t]) >= 0 && HexValue(s[2 * t + 1]) >= 0
  {
    Pair(s[2 * t], s[2 * t + 1])
  }

  /** Decoding an even-length run of hex digit pairs. */
  function DecodePairs(s: Bytes): (r: Bytes)
    requires |s| % 2 == 0 && AllHex(s)
    ensures |r| == |s| / 2
  {
    seq(|s| / 2, t requires 0 <= t < |s| / 2 => PairAt(s, t))
  }

  /** yb_string_from_hex as written, on a present input: None on a non-hex
      digit; for odd length the first character is checked but kept as the
      raw character, not its value. */
  function FromHexAsWritten(s: Bytes): (r: Option<Bytes>)
    ensures r.Some? <==> AllHex(s)
    ensures r.Some? ==> |r.value| == (|s| + 1) / 2
  {
    if !AllHex(s) then None
    else if |s| % 2 != 0 then
      assert AllHex(s[1..]);
      Some([s[0]] + DecodePairs(s[1..]))
    else Some(DecodePairs(s))
  }

  /** yb_string_from_hex as intended: an odd-length input's first character
      contributes its digit value. */
  function FromHexFixed(s: Bytes): (r: Option<Bytes>)
    ensures r.Some? <==> AllHex(s)
    ensures r.Some? ==> |r.value| == (|s| + 1) / 2
    ensures r.Some? && |s| % 2 != 0 ==> r.value[0] == HexValue(s[0]) as bv8
  {
    if !AllHex(s) then None
    else if |s| % 2 != 0 then
      assert AllHex(s[1..]);
      Some([HexValue(s[0]) as bv8] + DecodePairs(s[1..]))
    else Some(DecodePairs(s))
  }

  /** One byte survives encoding and decoding. */
  lemma NibbleRoundTrip(v: bv8)
    requires v < 16
    ensures HexValue(HexDigit(v)) == v as int
  {
  }

  lemma NibblesRecombine(b: bv8)
    ensures PairByte(HighNibble(b), LowNibble(b)) == b
  {
  }

  lemma HexByteRoundTrip(b: bv8)
    ensures HexValue(HexDigit(HighNibble(b))) as bv8 == HighNibble(b)
    ensures HexValue(HexDigit(LowNibble(b))) as bv8 == LowNibble(b)
    ensures PairByte(HighNibble(b), LowNibble(b)) == b
  {
    NibbleRoundTrip(HighNibble(b));
    NibbleRoundTrip(LowNibble(b));
    NibblesRecombine(b);
  }

  /** The two characters the encoding writes for byte t. */
  lemma EncodedChars(s: Bytes, t: nat)
    requires t < |s|
    ensures HexEncode(s)[2 * t] == HexDigit(HighNibble(s[t]))
    ensures HexEncode(s)[2 * t + 1] == HexDigit(LowNibble(s[t]))
  {
    assert (2 * t) % 2 == 0 && (2 * t) / 2 == t;
    assert (2 * t + 1) % 2 == 1 && (2 * t + 1) / 2 == t;
    assert HexEncode(s)[2 * t] == HexCharAt(s, 2 * t);
    assert HexEncode(s)[2 * t + 1] == HexCharAt(s, 2 * t + 1);
  }

  /** A byte's two hex digits are hex digits and read back as that byte. */
  lemma DigitsOfByte(b: bv8)
    ensures HexValue(HexDigit(HighNibble(b))) >= 0 && HexValue(HexDigit(LowNibble(b))) >= 0
    ensures Pair(HexDigit(HighNibble(b)), HexDigit(LowNibble(b))) == b
  {
    HexByteRoundTrip(b);
  }

  /** The two characters encoding byte t are hex digits that decode to it. */
  lemma EncodedPair(s: Bytes, t: nat)
    requires t < |s|
    ensures HexValue(HexEncode(s)[2 * t]) >= 0 && HexValue(HexEncode(s)[2 * t + 1]) >= 0
    ensures PairAt(HexEncode(s), t) == s[t]
  {
    EncodedChars(s, t);
    DigitsOfByte(s[t]);
  }

  lemma EncodingIsHex(s: Bytes)
    ensures AllHex(HexEncode(s))
  {
    var e := HexEncode(s);
    forall k | 0 <= k < |e|
      ensures HexValue(e[k]) >= 0
    {
      EncodedPair(s, k / 2);
      assert k == 2 * (k / 2) || k == 2 * (k / 2) + 1;
    }
  }

  /** from_hex inverts the encoding: decoding the lower-case hex of any
      bytes gives them back. */
  lemma HexRoundTrip(s: Bytes)
    ensures FromHexAsWritten(HexEncode(s)) == Some(s)
    ensures FromHexFixed(HexEncode(s)) == Some(s)
  {
    var e := HexEncode(s);
    EncodingIsHex(s);
    forall t | 0 <= t < |s|
      ensures DecodePairs(e)[t] == s[t]
    {
      EncodedPair(s, t);
    }
    assert DecodePairs(e) == s;
  }

  /** Odd-length input keeps its first character raw: "abc" decodes to
      0x61 0xbc where the digit value would give 0x0a 0xbc. */
  lemma FromHexOddDiscrepancy()
    ensures FromHexAsWritten([0x61, 0x62, 0x63]) == Some([0x61, 0xbc])
    ensures FromHexFixed([0x61, 0x62, 0x63]) == Some([0x0a, 0xbc])
  {
    var s: Bytes := [0x61, 0x62, 0x63];
    assert AllHex(s);
    assert s[1..] == [0x62, 0x63];
    assert HexValue(0x62) == 11 && HexValue(0x63) == 12 && HexValue(0x61) == 10;
    assert PairByte(11, 12) == 0xbc;
    assert PairAt(s[1..], 0) == 0xbc;
    assert DecodePairs(s[1..]) == [0xbc];
    assert FromHexAsWritten(s) == Some([s[0]] + DecodePairs(s[1..]));
    assert FromHexFixed(s) == Some([HexValue(s[0]) as bv8] + DecodePairs(s[1..]));
    assert [s[0]] + [0xbc] == [0x61, 0xbc];
    assert [HexValue(s[0]) as bv8] + [0xbc] == [0x0a, 0xbc];
  }

  /** With a buffer of at least 2*len + 2 bytes the whole content is
      encoded, so decoding the output recovers it. */
  lemma ToHexCoversAll(len: nat, outLen: int)
    requires outLen >= 2 * len + 2
    ensures HexCount(len, outLen) == len
  {
  }

  /** The pair loop of yb_string_from_hex: decodes `inp[from..]` into `p`
      from index `from` on, stopping with false at the first non-hex digit. */
  method DecodePairsInto(inp: Bytes, from: nat, p: array<bv8>) returns (ok: bool)
    requires from <= 1 && from <= |inp| && (|inp| - from) % 2 == 0
    requires p.Length == from + (|inp| - from) / 2
    modifies p
    ensures ok <==> AllHex(inp[from..])
    ensures ok ==> p[from..] == DecodePairs(inp[from..])
    ensures p[..from] == old(p[..from])
  {
    ghost var tail := inp[from..];
    var i := from;
    var j := from;
    while i < |inp|
      invariant from <= j && i == from + 2 * (j - from) && i <= |inp| && (|inp| - i) % 2 == 0
      invariant p[..from] == old(p[..from])
      invariant forall k :: 0 <= k < i - from ==> HexValue(tail[k]) >= 0
      invariant forall t :: from <= t < j ==> p[t] == PairAt(tail, t - from)
    {
      assert tail[i - from] == inp[i] && tail[i - from + 1] == inp[i + 1];
      var one := DecodeOne(inp, i, p, j);
      if !one {
        assert !AllHex(tail) by {
          assert HexValue(tail[i - from]) < 0 || HexValue(tail[i - from + 1]) < 0;
        }
        return false;
      }
      DecodedStep(p[..], from, j, tail);
      i := i + 2;
      j := j + 1;
    }
    DecodedAll(p[..], from, tail);
    ok := true;
  }

  /** One step of the pair loop: both digits are read and checked, and
      only when both are hex is the byte written at `j`. */
  method DecodeOne(inp: Bytes, i: nat, p: array<bv8>, j: nat) returns (ok: bool)
    requires i + 1 < |inp| && j < p.Length
    modifies p
    ensures ok <==> HexValue(inp[i]) >= 0 && HexValue(inp[i + 1]) >= 0
    ensures ok ==> p[..] == old(p[..])[j := Pair(inp[i], inp[i + 1])]
    ensures !ok ==> p[..] == old(p[..])
  {
    var d1 := HexValue(inp[i]);
    var d2 := HexValue(inp[i + 1]);
    if d1 < 0 || d2 < 0 {
      return false;
    }
    p[j] := PairByte(d1 as bv8, d2 as bv8);
    ok := true;
  }

  /** The loop invariants one pair further on. */
  lemma DecodedStep(q: seq<bv8>, from: nat, j: nat, tail: Bytes)
    requires from <= j < |q| && 2 * (j - from) + 1 < |tail|
    requires forall k :: 0 <= k < 2 * (j - from) ==> HexValue(tail[k]) >= 0
    requires HexValue(tail[2 * (j - from)]) >= 0 && HexValue(tail[2 * (j - from) + 1]) >= 0
    requires forall t :: from <= t < j ==> q[t] == PairAt(tail, t - from)
    requires q[j] == Pair(tail[2 * (j - from)], tail[2 * (j - from) + 1])
    ensures forall k :: 0 <= k < 2 * (j + 1 - from) ==> HexValue(tail[k]) >= 0
    ensures forall t :: from <= t < j + 1 ==> q[t] == PairAt(tail, t - from)
  {
  }

  lemma DecodedAll(q: seq<bv8>, from: nat, tail: Bytes)
    requires |tail| % 2 == 0 && AllHex(tail) && |q| == from + |tail| / 2
    requires forall t :: from <= t < |q| ==> q[t] == PairAt(tail, t - from)
    ensures q[from..] == DecodePairs(tail)
  {
  }

  /** yb_string_from_hex: NULL buffer fails; NULL input clears the buffer;
      a non-hex digit fails and leaves the buffer unchanged; otherwise the
      buffer owns the decoded bytes. */
  method FromHex(s: Str?, input: Option<Bytes>) returns (rc: int)
    modifies s
    ensures s == null ==> rc == YB_FAIL
    ensures s != null && input == None ==> rc == YB_OK && s.data == [] && !s.owned && !s.hasData
    ensures s != null && input.Some? && !AllHex(input.value) ==>
      rc == YB_FAIL && s.data == old(s.data) && s.owned == old(s.owned) && s.hasData == old(s.hasData)
    ensures s != null && input.Some? && AllHex(input.value) ==>
      rc == YB_OK && Some(s.data) == FromHexAsWritten(input.value) && s.owned && s.hasData
  {
    if s == null {
      return YB_FAIL;
    }
    if input == None {
      Clear(s);
      return YB_OK;
    }
    var inp := input.value;
    var plen := (|inp| + 1) / 2;
    var p := new bv8[plen];
    var i := 0;
    if |inp| % 2 != 0 {
      var d := HexValue(inp[0]);
      if d < 0 {
        return YB_FAIL;
      }
      p[0] := inp[0];
      i := 1;
    }
    var ok := DecodePairsInto(inp, i, p);
    if !ok {
      return YB_FAIL;
    }
    if i == 1 {
      assert p[..] == p[..1] + p[1..];
      assert p[..1] == [inp[0]];
      forall k | 0 <= k < |inp|
        ensures HexValue(inp[k]) >= 0
      {
        if k > 0 {
          assert inp[k] == inp[1..][k - 1];
        }
      }
      assert p[..] == [inp[0]] + DecodePairs(inp[1..]);
    } else {
      assert inp[0..] == inp;
    }
    rc := RefData(s, p[..]);
    s.owned := true;
    rc := YB_OK;
  }

  // ---------------------------------------------------------------------
  // Trim

  /** yb_string_trim as written, on present operands: fails when the two
      override lengths exceed the content; otherwise the prefix override is
      looked for at offset `|po|` (not 0) and the suffix override at the
      end, and the result is prefix ++ the kept middle ++ suffix. When the
      prefix window would run past the content the source reads beyond the
      buffer; the model takes that window as not matching. */
  function TrimAsWritten<T(==)>(src: seq<T>, prefix: seq<T>, suffix: seq<T>, po: seq<T>, so: seq<T>): (r: Option<seq<T>>)
    ensures r.None? <==> |po| + |so| > |src|
  {
    var pl, sl := |po|, |so|;
    if pl + sl > |src| then None
    else
      var start := if 2 * pl <= |src| && src[pl..2 * pl] == po then pl else 0;
      var end := if src[|src| - sl..] == so then |src| - sl else |src|;
      Some(prefix + src[start..end] + suffix)
  }

  /** The trim rule as intended: strip the prefix override if the content
      starts with it and the suffix override if it ends with it. */
  function TrimFixed<T(==)>(src: seq<T>, prefix: seq<T>, suffix: seq<T>, po: seq<T>, so: seq<T>): (r: Option<seq<T>>)
    ensures r.None? <==> |po| + |so| > |src|
    ensures r.Some? && StartsWith(src, po) && EndsWith(src, so) ==>
      r.value == prefix + src[|po|..|src| - |so|] + suffix
    ensures r.Some? && !StartsWith(src, po) && !EndsWith(src, so) ==>
      r.value == prefix + src + suffix
  {
    var pl, sl := |po|, |so|;
    if pl + sl > |src| then None
    else
      var start := if src[..pl] == po then pl else 0;
      var end := if src[|src| - sl..] == so then |src| - sl else |src|;
      assert src[0..|src|] == src;
      Some(prefix + src[start..end] + suffix)
  }

  /** The override tests of yb_string_trim: the window it compares with the
      prefix override, and the tail it compares with the suffix override. */
  method TrimBounds(data: Bytes, po: Bytes, so: Bytes) returns (start: nat, end: nat)
    requires |po| + |so| <= |data|
    ensures start == if 2 * |po| <= |data| && data[|po|..2 * |po|] == po then |po| else 0
    ensures end == if data[|data| - |so|..] == so then |data| - |so| else |data|
  {
    start := 0;
    end := |data|;
    var pl := |po|;
    var sl := |so|;
    var toRemove := new Str();
    if 2 * pl <= |data| {
      var _ := RefData(toRemove, data[pl..2 * pl]);
      if CompareCstr(toRemove, Some(po)) == 0 {
        start := pl;
      }
    }
    var _ := RefData(toRemove, data[|data| - sl..]);
    if CompareCstr(toRemove, Some(so)) == 0 {
      end := end - sl;
    }
  }

  /** yb_string_trim: fails for a NULL source, prefix or suffix, or when the
      overrides do not fit; otherwise `dest` is cleared and receives the
      trimmed text (it owns its bytes exactly when the result is non-empty).
      A NULL `dest` receives nothing and the call still succeeds. The
      source is not changed. The override strings must be present C strings
      and `dest` must not be `src` (the source would read freed memory). */
  method Trim(src: Str?, prefix: Option<Bytes>, suffix: Option<Bytes>, po: Bytes, so: Bytes, dest: Str?)
    returns (rc: int)
    requires src == null || src != dest
    modifies dest
    ensures src == null || prefix == None || suffix == None ==> rc == YB_FAIL
    ensures src != null && prefix.Some? && suffix.Some? && |po| + |so| > |src.data| ==> rc == YB_FAIL
    ensures rc == YB_FAIL && dest != null ==>
      dest.data == old(dest.data) && dest.owned == old(dest.owned) && dest.hasData == old(dest.hasData)
    ensures src != null && prefix.Some? && suffix.Some? && |po| + |so| <= |src.data| ==>
      rc == YB_OK &&
      (dest != null ==>
         Some(dest.data) == TrimAsWritten(src.data, prefix.value, suffix.value, po, so) &&
         dest.owned == (dest.data != []) && dest.hasData == (dest.data != []))
  {
    if src == null {
      return YB_FAIL;
    }
    if prefix == None || suffix == None {
      return YB_FAIL;
    }
    var data := src.data;
    if |po| + |so| > |data| {
      return YB_FAIL;
    }
    var start, end := TrimBounds(data, po, so);
    assert Some(prefix.value + data[start..end] + suffix.value) ==
      TrimAsWritten(data, prefix.value, suffix.value, po, so);
    ClearAndFill(dest, prefix.value, data[start..end], suffix.value);
    rc := YB_OK;
  }

  /** The output half of yb_string_trim: clear `dest`, then append the
      prefix, the kept window and the suffix. */
  method ClearAndFill(dest: Str?, p: Bytes, mid: Bytes, q: Bytes)
    modifies dest
    ensures dest != null ==>
      dest.data == p + mid + q && dest.owned == (p + mid + q != []) && dest.hasData == (p + mid + q != [])
  {
    Clear(dest);
    var _ := AppendCStr(dest, p);
    assert dest != null ==> dest.data == p && dest.owned == (p != []) && dest.hasData == (p != []);
    var _ := AppendData(dest, mid);
    assert dest != null ==>
      dest.data == p + mid && dest.owned == (p + mid != []) && dest.hasData == (p + mid != []);
    var _ := AppendCStr(dest, q);
  }

  /** The prefix override is looked for in the wrong place: "(ab" with
      prefix override "(" keeps its parenthesis, where the intended rule
      strips it. */
  lemma TrimPrefixWindowDiscrepancy()
    ensures TrimAsWritten("(ab", "", "", "(", "") == Some("(ab")
    ensures TrimFixed("(ab", "", "", "(", "") == Some("ab")
  {
    var src := "(ab";
    assert src[1..2] == "a" != "(";
    assert src[..1] == "(";
    assert src[3..] == "";
    assert src[1..3] == "ab";
    assert src[0..3] == src;
    assert "" + src + "" == src;
    assert "" + "ab" + "" == "ab";
  }

  /** The suffix override must match the last bytes exactly: content
      "a = 1, " with suffix override "," ends in a blank, so nothing is
      stripped (unlike the "strip the trailing comma" reading). */
  lemma TrimSuffixNeedsExactEnd()
    ensures TrimAsWritten("a = 1, ", "", "", "", ",") == Some("a = 1, ")
    ensures TrimAsWritten("a = 1,", "", "", "", ",") == Some("a = 1")
  {
    var s1, s2 := "a = 1, ", "a = 1,";
    assert s1[0..0] == "" && s1[6..] == " " != "," && s1[0..7] == s1;
    assert "" + s1 + "" == s1;
    assert s2[0..0] == "" && s2[5..] == "," && s2[0..5] == "a = 1";
    assert "" + "a = 1" + "" == "a = 1";
  }
}
