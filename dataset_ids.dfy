/**
 * Dataset identifiers as file names (lib_core/datamart_core/common.py): `encode_dataset_id`
 * escapes every character outside `[A-Za-z0-9_.-]`, `decode_dataset_id` undoes it. The escape of
 * a character is `_` followed by its code point in upper-case hexadecimal without padding, so
 * the round trip holds only for code points from 0x10 to 0xFF.
 */
module DatasetIds {
  import opened Wrappers
  import opened PyStr
  import opened Seqs

  // ---------------------------------------------------------------------------
  // Encoding

  /** The characters the regular expression `[^A-Za-z0-9_.-]` does not match. */
  predicate PathSafe(c: char)
  {
    IsAsciiUpper(c) || IsAsciiLower(c) || IsDigit(c) || c == '_' || c == '.' || c == '-'
  }

  /** `dataset_id.replace('_', '__')`. */
  function DoubleUnderscores(s: string): (r: string)
  {
    if s == [] then [] else (if s[0] == '_' then "__" else [s[0]]) + DoubleUnderscores(s[1..])
  }

  /** `re_non_path_safe.sub(lambda m: '_%X' % ord(m.group(0)), s)`. */
  function EscapeUnsafe(s: string): (r: string)
  {
    if s == [] then [] else (if PathSafe(s[0]) then [s[0]] else "_" + Hex(s[0] as nat)) + EscapeUnsafe(s[1..])
  }

  function EncodeDatasetId(id: string): string
  {
    EscapeUnsafe(DoubleUnderscores(id))
  }

  /** What one character of the identifier becomes. */
  function EncodeChar(c: char): string
  {
    if c == '_' then "__" else if PathSafe(c) then [c] else "_" + Hex(c as nat)
  }

  lemma {:induction false} EscapeUnsafeAppend(a: string, b: string)
    ensures EscapeUnsafe(a + b) == EscapeUnsafe(a) + EscapeUnsafe(b)
  {
    if a == [] {
      assert a + b == b;
    } else {
      var c := a[0];
      var piece := if PathSafe(c) then [c] else "_" + Hex(c as nat);
      assert (a + b)[0] == c;
      assert (a + b)[1..] == a[1..] + b;
      EscapeUnsafeAppend(a[1..], b);
      assert EscapeUnsafe(a + b) == piece + (EscapeUnsafe(a[1..]) + EscapeUnsafe(b));
      assert EscapeUnsafe(a) == piece + EscapeUnsafe(a[1..]);
    }
  }

  /** The encoding works character by character. */
  lemma {:induction false} EncodeCons(id: string)
    requires id != []
    ensures EncodeDatasetId(id) == EncodeChar(id[0]) + EncodeDatasetId(id[1..])
  {
    var head := if id[0] == '_' then "__" else [id[0]];
    EscapeUnsafeAppend(head, DoubleUnderscores(id[1..]));
    if id[0] == '_' {
      assert EscapeUnsafe("__") == "__" by {
        assert EscapeUnsafe("__"[1..]) == "_";
      }
    } else {
      assert head[1..] == [];
    }
  }

  /** Every character of an encoded identifier is path safe. */
  lemma {:induction false} EncodeIsPathSafe(id: string)
    ensures forall k :: 0 <= k < |EncodeDatasetId(id)| ==> PathSafe(EncodeDatasetId(id)[k])
  {
    if id != [] {
      EncodeCons(id);
      EncodeIsPathSafe(id[1..]);
      var e := EncodeChar(id[0]);
      forall k | 0 <= k < |e| ensures PathSafe(e[k]) {
        if !PathSafe(id[0]) && k > 0 {
          assert e[k] == Hex(id[0] as nat)[k - 1];
        }
      }
    }
  }

  /** Every `_` is doubled, and the other safe characters are kept. */
  lemma {:induction false} EncodeSafe(id: string)
    requires forall k :: 0 <= k < |id| ==> PathSafe(id[k])
    ensures EncodeDatasetId(id) == DoubleUnderscores(id)
  {
    if id != [] {
      EncodeCons(id);
      EncodeSafe(id[1..]);
    }
  }

  /** An identifier made only of `[A-Za-z0-9.-]` is its own encoding. */
  lemma {:induction false} EncodeIdentity(id: string)
    requires forall k :: 0 <= k < |id| ==> PathSafe(id[k]) && id[k] != '_'
    ensures EncodeDatasetId(id) == id
  {
    if id != [] {
      EncodeCons(id);
      EncodeIdentity(id[1..]);
      assert id == [id[0]] + id[1..];
    }
  }

  // ---------------------------------------------------------------------------
  // Decoding

  const IndexError: string := "IndexError: list index out of range"
  const InvalidLiteral: string := "ValueError: invalid literal for int() with base 16"
  const ChrRange: string := "ValueError: chr() arg not in range(0x110000)"

  /** The value of an ASCII hexadecimal digit, either case. */
  function HexValue(c: char): Option<nat>
  {
    if IsDigit(c) then Some(c as nat - '0' as nat)
    else if 'a' <= c <= 'f' then Some(c as nat - 'a' as nat + 10)
    else if 'A' <= c <= 'F' then Some(c as nat - 'A' as nat + 10)
    else None
  }

  /** A run of one or two hexadecimal digits, read most significant first. */
  function HexDigitsValue(t: string): (r: Option<nat>)
    requires |t| <= 2
    ensures r.Some? ==> t != [] && r.value < 256
    ensures r.Some? && |t| == 1 ==> r.value < 16
  {
    if |t| == 1 then HexValue(t[0])
    else if |t| == 2 && HexValue(t[0]).Some? && HexValue(t[1]).Some? then
      Some(HexValue(t[0]).value * 16 + HexValue(t[1]).value)
    else None
  }

  /**
   * `int(s, 16)` for the one- or two-character strings `decode_dataset_id` passes: surrounding
   * white space and one sign are allowed around the digits.
   */
  function IntBase16(s: string): (r: Result<int>)
    requires |s| <= 2
    ensures r.Ok? ==> -255 <= r.value <= 255
  {
    SignedHex(Strip(s))
  }

  /** An optional sign followed by the digits. */
  function SignedHex(t: string): (r: Result<int>)
    requires |t| <= 2
    ensures r.Ok? ==> -255 <= r.value <= 255
  {
    if t != [] && (t[0] == '+' || t[0] == '-') then
      match HexDigitsValue(t[1..])
      case None => Err(InvalidLiteral)
      case Some(v) => Ok(if t[0] == '-' then 0 - v else v)
    else
      match HexDigitsValue(t)
      case None => Err(InvalidLiteral)
      case Some(v) => Ok(v)
  }

  /** `int(s, 16)` spelled out for the strings of at most two characters. */
  function IntBase16Short(s: string): (r: Result<int>)
    requires |s| <= 2
  {
    if |s| == 1 && HexValue(s[0]).Some? then Ok(HexValue(s[0]).value)
    else if |s| == 2 && HexValue(s[0]).Some? && HexValue(s[1]).Some? then
      Ok(HexValue(s[0]).value * 16 + HexValue(s[1]).value)
    else if |s| == 2 && IsSpace(s[0]) && HexValue(s[1]).Some? then Ok(HexValue(s[1]).value)
    else if |s| == 2 && HexValue(s[0]).Some? && IsSpace(s[1]) then Ok(HexValue(s[0]).value)
    else if |s| == 2 && s[0] == '+' && HexValue(s[1]).Some? then Ok(HexValue(s[1]).value)
    else if |s| == 2 && s[0] == '-' && HexValue(s[1]).Some? then Ok(0 - HexValue(s[1]).value)
    else Err(InvalidLiteral)
  }

  /** `strip()` on two characters. */
  lemma StripPair(s: string)
    requires |s| == 2
    ensures Strip(s) == (if IsSpace(s[0]) && IsSpace(s[1]) then []
                         else if IsSpace(s[0]) then [s[1]]
                         else if IsSpace(s[1]) then [s[0]]
                         else s)
  {
    assert s[1..] == [s[1]] && s[..1] == [s[0]];
    if IsSpace(s[0]) {
      assert StripLeft(s) == StripLeft([s[1]]);
      if IsSpace(s[1]) {
        assert [s[1]][1..] == [];
        assert StripLeft(s) == [];
      } else {
        assert StripLeft(s) == [s[1]];
      }
    } else {
      assert StripLeft(s) == s;
      if IsSpace(s[1]) {
        assert StripRight(s) == StripRight([s[0]]);
        assert StripRight(s) == [s[0]];
      } else {
        assert StripRight(s) == s;
      }
    }
  }

  /** `strip()` on one character. */
  lemma StripOne(s: string)
    requires |s| == 1
    ensures Strip(s) == (if IsSpace(s[0]) then [] else s)
  {
    if IsSpace(s[0]) {
      assert s[1..] == [];
      assert StripLeft(s) == StripLeft([]);
    } else {
      assert StripLeft(s) == s && StripRight(s) == s;
    }
  }

  lemma ShortAgreesNoSpace(s: string)
    requires |s| == 2 && !IsSpace(s[0]) && !IsSpace(s[1])
    ensures IntBase16Short(s) == SignedHex(s)
  {
    assert s[1..] == [s[1]];
  }

  lemma ShortAgreesOneSpace(s: string, c: char)
    requires |s| == 2 && !IsSpace(c)
    requires (IsSpace(s[0]) && !IsSpace(s[1]) && c == s[1]) || (!IsSpace(s[0]) && IsSpace(s[1]) && c == s[0])
    ensures IntBase16Short(s) == SignedHex([c])
  {
    assert [c][1..] == [];
  }

  lemma SpaceIsNotDigit(c: char)
    requires IsSpace(c)
    ensures HexValue(c).None? && c != '+' && c != '-'
  {
  }

  lemma ShortAgreesTwo(s: string)
    requires |s| == 2
    ensures IntBase16Short(s) == IntBase16(s)
  {
    StripPair(s);
    assert IntBase16(s) == SignedHex(Strip(s));
    if !IsSpace(s[0]) && !IsSpace(s[1]) {
      ShortAgreesNoSpace(s);
    } else if !IsSpace(s[0]) {
      ShortAgreesOneSpace(s, s[0]);
    } else if !IsSpace(s[1]) {
      ShortAgreesOneSpace(s, s[1]);
    } else {
      SpaceIsNotDigit(s[0]);
      SpaceIsNotDigit(s[1]);
      assert SignedHex([]) == Err(InvalidLiteral);
    }
  }

  lemma ShortAgreesOne(s: string)
    requires |s| == 1
    ensures IntBase16Short(s) == IntBase16(s)
  {
    StripOne(s);
    if IsSpace(s[0]) {
      SpaceIsNotDigit(s[0]);
      assert IntBase16Short(s) == Err(InvalidLiteral);
      assert IntBase16(s) == SignedHex([]);
    } else {
      ShortAgreesOneDigit(s);
      assert IntBase16(s) == SignedHex(s);
    }
  }

  lemma ShortAgreesOneDigit(s: string)
    requires |s| == 1 && !IsSpace(s[0])
    ensures IntBase16Short(s) == SignedHex(s)
  {
    assert s[1..] == [];
  }

  /** The two-character reading of `int(s, 16)` agrees with the general one. */
  lemma IntBase16ShortAgrees(s: string)
    requires |s| <= 2
    ensures IntBase16Short(s) == IntBase16(s)
  {
    if |s| == 2 {
      ShortAgreesTwo(s);
    } else if |s| == 1 {
      ShortAgreesOne(s);
    } else {
      assert Strip(s) == [];
    }
  }

  /** `chr(int(char_hex, 16))`. */
  function HexChar(s: string): (r: Result<char>)
    requires |s| <= 2
    ensures r.Ok? ==> r.value as int <= 255
  {
    match IntBase16Short(s)
    case Err(m) => Err(m)
    case Ok(v) => if v < 0 then Err(ChrRange) else Ok(v as char)
  }

  /**
   * What `decode_dataset_id` computes: `__` gives `_`, `_` and the (at most two) characters after
   * it give the character with that code, a `_` at the very end is an index error.
   */
  function Decode(s: string): (r: Result<string>)
    decreases |s|
  {
    if s == [] then Ok([])
    else if s[0] != '_' then Prepend([s[0]], Decode(s[1..]))
    else if |s| == 1 then Err(IndexError)
    else if s[1] == '_' then Prepend("_", Decode(s[2..]))
    else
      var n := if |s| < 3 then |s| else 3;
      match HexChar(s[1..n])
      case Err(m) => Err(m)
      case Ok(c) => Prepend([c], Decode(s[n..]))
  }

  lemma DecodeUnfoldPlain(s: string)
    requires s != [] && s[0] != '_'
    ensures Decode(s) == Prepend([s[0]], Decode(s[1..]))
  {
  }

  lemma DecodeUnfoldUnderscore(s: string)
    requires |s| >= 2 && s[0] == '_' && s[1] == '_'
    ensures Decode(s) == Prepend("_", Decode(s[2..]))
  {
  }

  lemma DecodeUnfoldEscape(s: string, n: nat)
    requires |s| >= 2 && s[0] == '_' && s[1] != '_' && n == (if |s| < 3 then |s| else 3)
    ensures HexChar(s[1..n]).Err? ==> Decode(s) == Err(HexChar(s[1..n]).msg)
    ensures HexChar(s[1..n]).Ok? ==> Decode(s) == Prepend([HexChar(s[1..n]).value], Decode(s[n..]))
  {
  }

  /** What the loop of `decode_dataset_id` keeps: `ds[..i]` is decoded, `ds[i..]` is the input from `j` on. */
  ghost predicate DecodeTracks(encoded: string, ds: string, i: nat, j: nat)
  {
    && i <= |ds| && j <= |encoded| && ds[i..] == encoded[j..]
    && Decode(encoded) == Prepend(ds[..i], Decode(encoded[j..]))
  }

  /**
   * The loop of `decode_dataset_id`, over the list of characters it deletes from and overwrites
   * in place; `i` walks the list and the ghost `j` the input.
   */
  method DecodeDatasetId(encoded: string) returns (r: Result<string>)
    ensures r == Decode(encoded)
  {
    var ds := encoded;
    var i := 0;
    ghost var j: nat := 0;
    assert Prepend([], Decode(encoded)) == Decode(encoded) by {
      if Decode(encoded).Ok? { assert [] + Decode(encoded).value == Decode(encoded).value; }
    }
    while i < |ds|
      invariant DecodeTracks(encoded, ds, i, j)
      decreases |ds| - i
    {
      if ds[i] == '_' {
        var failed;
        ds, j, failed := DecodeEscape(encoded, ds, i, j);
        if failed.Some? {
          return Err(failed.value);
        }
      } else {
        ghost var rest := encoded[j..];
        assert rest == ds[i..] && rest[0] == ds[i];
        DecodeUnfoldPlain(rest);
        PrependAppend(ds[..i], [ds[i]], Decode(rest[1..]));
        assert ds[..i + 1] == ds[..i] + [ds[i]];
        j := j + 1;
      }
      i := i + 1;
    }
    assert encoded[j..] == [];
    assert ds[..i] == ds && ds + [] == ds;
    return Ok(ds);
  }

  /**
   * One `_` at `ds[i]`: `__` loses its second `_`; otherwise the (at most two) characters after
   * it are deleted and the `_` is overwritten by the character they encode.
   */
  method DecodeEscape(ghost encoded: string, ds: string, i: nat, ghost j: nat) returns (ds': string, ghost j': nat, failed: Option<string>)
    requires DecodeTracks(encoded, ds, i, j) && i < |ds| && ds[i] == '_'
    ensures failed.Some? ==> Decode(encoded) == Err(failed.value)
    ensures failed.None? ==> DecodeTracks(encoded, ds', i + 1, j') && |ds'| <= |ds|
  {
    ghost var rest := encoded[j..];
    ghost var done := ds[..i];
    assert rest == ds[i..] && rest[0] == ds[i];
    if i + 1 >= |ds| {
      assert Decode(rest) == Err(IndexError);
      return ds, j, Some(IndexError);
    }
    assert rest[1] == ds[i + 1];
    if ds[i + 1] == '_' {
      DecodeUnfoldUnderscore(rest);
      PrependAppend(done, "_", Decode(rest[2..]));
      ds' := ds[..i + 1] + ds[i + 2..];
      assert ds'[..i + 1] == done + "_";
      assert ds'[i + 1..] == rest[2..];
      return ds', j + 2, None;
    }
    var hi := if i + 3 <= |ds| then i + 3 else |ds|;
    var charHex := ds[i + 1..hi];
    assert charHex == rest[1..hi - i] by {
      assert forall k :: 0 <= k < hi - i - 1 ==> charHex[k] == ds[i..][1 + k];
    }
    var ch := HexChar(charHex);
    DecodeUnfoldEscape(rest, hi - i);
    if ch.Err? {
      return ds, j, Some(ch.msg);
    }
    var c := ch.value;
    PrependAppend(done, [c], Decode(rest[hi - i..]));
    ds' := (ds[..i + 1] + ds[hi..])[i := c];
    assert ds'[..i + 1] == done + [c];
    assert ds'[i + 1..] == rest[hi - i..];
    return ds', j + (hi - i), None;
  }

  // ---------------------------------------------------------------------------
  // Properties of the pair

  /** `__` decodes to a single `_`. */
  lemma DecodeDoubleUnderscore(s: string)
    ensures Decode("__" + s) == Prepend("_", Decode(s))
  {
    assert ("__" + s)[2..] == s;
  }

  /** A `_` with nothing after it is an index error. */
  lemma DecodeTrailingUnderscore(s: string)
    requires forall k :: 0 <= k < |s| ==> s[k] != '_'
    ensures Decode(s + "_") == Err(IndexError)
    decreases |s|
  {
    if s != [] {
      assert (s + "_")[1..] == s[1..] + "_";
      DecodeTrailingUnderscore(s[1..]);
    }
  }

  /** The hexadecimal spelling of a code point from 0x10 to 0xFF is two digits. */
  lemma HexTwoDigits(n: nat)
    requires 16 <= n < 256
    ensures Hex(n) == [HexDigit(n / 16), HexDigit(n % 16)]
  {
  }

  lemma HexDigitValue(d: nat)
    requires d < 16
    ensures HexValue(HexDigit(d)) == Some(d)
  {
  }

  /** Two upper-case digits read back as the number they spell. */
  lemma HexCharOfHex(c: char)
    requires 16 <= c as int < 256
    ensures |Hex(c as nat)| == 2 && HexChar(Hex(c as nat)) == Ok(c)
  {
    var n := c as nat;
    HexTwoDigits(n);
    HexDigitValue(n / 16);
    HexDigitValue(n % 16);
    HexCharExample(Hex(n), n);
  }

  /** The characters for which encoding and decoding are inverse. */
  predicate RoundTrips(c: char)
  {
    PathSafe(c) || 16 <= c as int < 256
  }

  /** Decoding the encoding gives the identifier back when every escaped code point is in 0x10..0xFF. */
  lemma {:induction false} DecodeEncode(id: string)
    requires forall k :: 0 <= k < |id| ==> RoundTrips(id[k])
    ensures Decode(EncodeDatasetId(id)) == Ok(id)
  {
    if id != [] {
      EncodeCons(id);
      DecodeEncode(id[1..]);
      var c := id[0];
      var rest := EncodeDatasetId(id[1..]);
      if c == '_' {
        DecodeDoubleUnderscore(rest);
      } else if PathSafe(c) {
        assert ([c] + rest)[1..] == rest;
      } else {
        HexCharOfHex(c);
        var e := "_" + Hex(c as nat) + rest;
        HexTwoDigits(c as nat);
        assert e[1..3] == Hex(c as nat);
        assert e[3..] == rest;
      }
      assert id == [c] + id[1..];
    }
  }

  /** Below 0x10 the escape has one digit and swallows the next character: `"\x05A"` comes back as `"Z"`. */
  lemma ShortEscapeBreaksRoundTrip(id: string)
    requires id == "\U{05}A"
    ensures EncodeDatasetId(id) == "_5A"
    ensures Decode(EncodeDatasetId(id)) == Ok("Z")
  {
    EncodeCons(id);
    EncodeCons(id[1..]);
    assert EncodeDatasetId(id[1..][1..]) == [];
    var e := EncodeDatasetId(id);
    assert e == "_5A";
    assert e[1..3] == "5A" && e[3..] == [];
    HexCharExample(e[1..3], 0x5A);
    assert HexChar(e[1..3]) == Ok('Z');
    DecodeUnfoldEscape(e, 3);
    assert Decode(e[3..]) == Ok([]);
    assert Decode(e) == Prepend(['Z'], Ok([]));
    assert ['Z'] + [] == "Z";
  }

  /** Above 0xFF the escape has more than two digits: `"€"` comes back as `" AC"`. */
  lemma LongEscapeBreaksRoundTrip(id: string)
    requires id == "\U{20AC}"
    ensures EncodeDatasetId(id) == "_20AC"
    ensures Decode(EncodeDatasetId(id)) == Ok(" AC")
  {
    EncodeCons(id);
    assert EncodeDatasetId(id[1..]) == [];
    HexOfEuro(0x20AC);
    assert !PathSafe(id[0]) && id[0] != '_';
    assert EncodeChar(id[0]) == "_20AC";
    var e := EncodeDatasetId(id);
    assert e == "_20AC";
    assert e[1..3] == "20" && e[3..] == "AC";
    HexCharExample(e[1..3], 0x20);
    DecodeUnfoldEscape(e, 3);
    var rest := e[3..];
    DecodeUnfoldPlain(rest);
    assert rest[1..] == "C";
    DecodeUnfoldPlain(rest[1..]);
    assert rest[1..][1..] == [];
    assert Decode(rest[1..]) == Prepend("C", Ok([]));
    assert "C" + [] == "C" && "A" + "C" == "AC";
    assert Decode(rest) == Ok("AC");
    assert HexChar(e[1..3]) == Ok(' ');
    assert Decode(e) == Prepend([' '], Ok("AC"));
    assert [' '] + "AC" == " AC";
  }

  lemma HexOfEuro(n: nat)
    requires n == 0x20AC
    ensures Hex(n) == "20AC"
  {
    assert Hex(n / 256) == "20";
    assert Hex(n / 16) == "20A";
  }

  /** Two upper-case hexadecimal digits give the character they spell. */
  lemma HexCharExample(s: string, n: nat)
    requires |s| == 2 && n < 256 && HexValue(s[0]) == Some(n / 16) && HexValue(s[1]) == Some(n % 16)
    ensures HexChar(s) == Ok(n as char)
  {
    assert IntBase16Short(s) == Ok(n / 16 * 16 + n % 16);
  }

  // ---------------------------------------------------------------------------
  // Links in descriptions

  predicate StartsWith(s: string, prefix: string)
  {
    |prefix| <= |s| && s[..|prefix|] == prefix
  }

  /** `url.rstrip('/')`. */
  function StripTrailingSlashes(s: string): (r: string)
    ensures |r| <= |s| && r == s[..|r|]
    ensures r == [] || r[|r| - 1] != '/'
    ensures forall k :: |r| <= k < |s| ==> s[k] == '/'
  {
    if s != [] && s[|s| - 1] == '/' then StripTrailingSlashes(s[..|s| - 1]) else s
  }

  /** `_base_url`: drop one leading `http://` or `https://`, then every trailing `/`. */
  function BaseUrl(url: string): (r: string)
    ensures r == [] || r[|r| - 1] != '/'
  {
    if StartsWith(url, "http://") then StripTrailingSlashes(url[7..])
    else if StartsWith(url, "https://") then StripTrailingSlashes(url[8..])
    else StripTrailingSlashes(url)
  }

  /** Only one scheme is removed, and both schemes name the same base. */
  lemma BaseUrlOneScheme(rest: string)
    ensures BaseUrl("http://" + rest) == StripTrailingSlashes(rest)
    ensures BaseUrl("https://" + rest) == StripTrailingSlashes(rest)
  {
    assert ("http://" + rest)[..7] == "http://";
    assert ("http://" + rest)[7..] == rest;
    assert ("https://" + rest)[..7] != "http://" by {
      assert ("https://" + rest)[4] == 's';
    }
    assert ("https://" + rest)[..8] == "https://";
    assert ("https://" + rest)[8..] == rest;
  }

  /**
   * The replacement of one `<a href="url">text</a>` in `strip_html`: the text alone when it
   * names the link target, otherwise the text followed by the target in parentheses.
   */
  function ReplaceLink(url: string, text: string): (r: string)
    ensures StartsWith(r, text)
    ensures r == text <==> BaseUrl(url) == BaseUrl(text)
    ensures r != text ==> r[|text|..] == " (" + url + ")"
  {
    if BaseUrl(url) == BaseUrl(text) then text else text + " (" + url + ")"
  }

  /** Link text that spells its own target, up to the scheme and the trailing slashes, is kept alone. */
  lemma ReplaceLinkSameSite(text: string)
    requires !StartsWith(text, "http://") && !StartsWith(text, "https://")
    ensures ReplaceLink("https://" + text + "/", text) == text
  {
    BaseUrlOneScheme(text + "/");
    assert "https://" + text + "/" == "https://" + (text + "/");
    assert StripTrailingSlashes(text + "/") == StripTrailingSlashes(text) by {
      assert (text + "/")[..|text|] == text;
    }
  }
}
