/** Signed listing cursors (`CursorCodec`, `_b64` and `_unb64` in _naming.py). */
module Cursor {
  import opened Prelude

  // ----- base64url, section 5 of RFC 4648 -----

  function Symbol(v: int): char
    requires 0 <= v < 64
  {
    if v < 26 then 'A' + v as char
    else if v < 52 then 'a' + (v - 26) as char
    else if v < 62 then '0' + (v - 52) as char
    else if v == 62 then '-' else '_'
  }

  /** The decoder also takes the standard alphabet's `+` and `/`. */
  function Value(c: char): Option<int> {
    if 'A' <= c <= 'Z' then Some(c as int - 'A' as int)
    else if 'a' <= c <= 'z' then Some(c as int - 'a' as int + 26)
    else if '0' <= c <= '9' then Some(c as int - '0' as int + 52)
    else if c == '-' || c == '+' then Some(62)
    else if c == '_' || c == '/' then Some(63)
    else None
  }

  /** `urlsafe_b64encode`, padded. */
  function Encode64(v: Bytes): string {
    if |v| == 0 then ""
    else if |v| == 1 then
      var a := v[0] as int;
      [Symbol(a / 4), Symbol(a % 4 * 16), '=', '=']
    else if |v| == 2 then
      var a, b := v[0] as int, v[1] as int;
      [Symbol(a / 4), Symbol(a % 4 * 16 + b / 16), Symbol(b % 16 * 4), '=']
    else Quad(v) + Encode64(v[3..])
  }

  function Quad(v: Bytes): string
    requires |v| >= 3
  {
    var a, b, c := v[0] as int, v[1] as int, v[2] as int;
    [Symbol(a / 4), Symbol(a % 4 * 16 + b / 16), Symbol(b % 16 * 4 + c / 64), Symbol(c % 64)]
  }

  /** `rstrip("=")`. */
  function StripPadding(s: string): string {
    if s != "" && s[|s| - 1] == '=' then StripPadding(s[..|s| - 1]) else s
  }

  function Unpadded(v: Bytes): string { StripPadding(Encode64(v)) }

  /**
    The lenient base64 decoder: characters outside the alphabet are skipped, and padding that completes
    a group ends the input. `quad` is the position in the group and `left` the bits not yet written.
   */
  function Decode64(s: string, quad: int, left: int, pads: nat, out: Bytes): Option<Bytes>
    requires 0 <= quad < 4 && 0 <= left && (quad == 1 ==> left < 64) && (quad == 2 ==> left < 16)
             && (quad == 3 ==> left < 4)
    decreases |s|
  {
    if s == "" then (if quad == 0 then Some(out) else None)
    else if s[0] == '=' then
      if quad >= 2 && quad + pads + 1 >= 4 then Some(out)
      else Decode64(s[1..], quad, left, if quad >= 2 then pads + 1 else pads, out)
    else match Value(s[0])
      case None => Decode64(s[1..], quad, left, pads, out)
      case Some(x) =>
        if quad == 0 then Decode64(s[1..], 1, x, 0, out)
        else if quad == 1 then Decode64(s[1..], 2, x % 16, 0, out + [(left * 4 + x / 16) as Byte])
        else if quad == 2 then Decode64(s[1..], 3, x % 4, 0, out + [(left * 16 + x / 4) as Byte])
        else Decode64(s[1..], 0, 0, 0, out + [(left * 64 + x) as Byte])
  }

  predicate Ascii(s: string) { forall i :: 0 <= i < |s| ==> s[i] < 128 as char }

  function Padding(n: int): string
    requires 0 <= n < 4
  {
    ["", "=", "==", "==="][n]
  }

  /** `_unb64`. */
  function FromUnpadded(s: string): Option<Bytes> {
    if !Ascii(s) then None else Decode64(s + Padding((-|s|) % 4), 0, 0, 0, [])
  }

  lemma SymbolFacts(v: int)
    requires 0 <= v < 64
    ensures Value(Symbol(v)) == Some(v) && Symbol(v) != '=' && Symbol(v) != '.' && Symbol(v) < 128 as char
  {
  }

  /** The alphabet, and the two characters of the standard alphabet that the decoder takes as well. */
  lemma Alphabet(v: int)
    requires 0 <= v < 64
    ensures v < 26 ==> 'A' <= Symbol(v) <= 'Z' && Symbol(v) as int == 65 + v
    ensures 26 <= v < 52 ==> 'a' <= Symbol(v) <= 'z' && Symbol(v) as int == 97 + (v - 26)
    ensures 52 <= v < 62 ==> '0' <= Symbol(v) <= '9' && Symbol(v) as int == 48 + (v - 52)
    ensures (v == 62 ==> Symbol(v) == '-') && (v == 63 ==> Symbol(v) == '_')
    ensures Value('+') == Value('-') == Some(62) && Value('/') == Value('_') == Some(63)
  {
  }

  /**
    Beyond canonical text: two `=` after two symbols of a group and one after three end the input, any other
    `=` is skipped like a character outside the alphabet, a group left incomplete and text that is not ASCII
    are refused.
   */
  lemma Leniency(s: string, quad: int, left: int, out: Bytes)
    requires 0 <= quad < 4 && 0 <= left
    requires (quad == 1 ==> left < 64) && (quad == 2 ==> left < 16) && (quad == 3 ==> left < 4)
    ensures Decode64("==" + s, 2, left % 16, 0, out) == Some(out) && Decode64("=" + s, 3, left % 4, 0, out) == Some(out)
    ensures quad < 2 ==> Decode64("=" + s, quad, left, 0, out) == Decode64(s, quad, left, 0, out)
    ensures Decode64("", quad, left, 0, out) == if quad == 0 then Some(out) else None
    ensures Decode64("=", 2, left % 16, 0, out) == None
    ensures s != "" && Value(s[0]).None? && s[0] != '=' ==>
              Decode64(s, quad, left, 0, out) == Decode64(s[1..], quad, left, 0, out)
    ensures (exists i :: 0 <= i < |s| && s[i] as int >= 128) ==> FromUnpadded(s) == None
  {
    assert ("==" + s)[1..] == "=" + s && ("=" + s)[1..] == s && "="[1..] == "";
    assert Decode64("=" + s, 2, left % 16, 1, out) == Some(out);
  }

  /** Four symbols are the base-64 digits of the number that three bytes spell, most significant first. */
  lemma QuadSpells(v: Bytes)
    requires |v| >= 3
    ensures forall i :: 0 <= i < 4 ==> Value(Quad(v)[i]).Some?
    ensures var digit := i requires 0 <= i < 4 => Value(Quad(v)[i]).value;
            ((digit(0) * 64 + digit(1)) * 64 + digit(2)) * 64 + digit(3) ==
              (v[0] as int * 256 + v[1] as int) * 256 + v[2] as int
  {
    var a, b, c := v[0] as int, v[1] as int, v[2] as int;
    SymbolFacts(a / 4);
    SymbolFacts(a % 4 * 16 + b / 16);
    SymbolFacts(b % 16 * 4 + c / 64);
    SymbolFacts(c % 64);
  }

  /** The unpadded text of a byte string, group by group. */
  lemma {:induction false} UnpaddedGroups(v: Bytes)
    ensures |v| == 0 ==> Unpadded(v) == ""
    ensures |v| == 1 ==> Unpadded(v) == [Symbol(v[0] as int / 4), Symbol(v[0] as int % 4 * 16)]
    ensures |v| == 2 ==> Unpadded(v) == [Symbol(v[0] as int / 4), Symbol(v[0] as int % 4 * 16 + v[1] as int / 16),
                                         Symbol(v[1] as int % 16 * 4)]
    ensures |v| >= 3 ==> Unpadded(v) == Quad(v) + Unpadded(v[3..])
    decreases |v|
  {
    if |v| == 1 {
      var s := [Symbol(v[0] as int / 4), Symbol(v[0] as int % 4 * 16)];
      SymbolFacts(v[0] as int % 4 * 16);
      StripAll();
      StripTail(s, "==");
      assert Encode64(v) == s + "==";
    } else if |v| == 2 {
      var s := [Symbol(v[0] as int / 4), Symbol(v[0] as int % 4 * 16 + v[1] as int / 16), Symbol(v[1] as int % 16 * 4)];
      SymbolFacts(v[1] as int % 16 * 4);
      StripAll();
      StripTail(s, "=");
      assert Encode64(v) == s + "=";
    } else if |v| >= 3 {
      SymbolFacts(v[2] as int % 64);
      StripTail(Quad(v), Encode64(v[3..]));
    }
  }

  lemma StripAll()
    ensures StripPadding("=") == "" && StripPadding("==") == ""
  {
    assert "="[..0] == "";
    assert "=="[..1] == "=";
  }

  /** Stripping a longer text strips its tail only, when what comes before does not end in padding. */
  lemma {:induction false} StripTail(head: string, tail: string)
    requires head != "" && head[|head| - 1] != '='
    ensures StripPadding(head + tail) == head + StripPadding(tail)
    decreases |tail|
  {
    if tail == "" {
      assert head + tail == head;
    } else if tail[|tail| - 1] == '=' {
      assert (head + tail)[..|head + tail| - 1] == head + tail[..|tail| - 1];
      StripTail(head, tail[..|tail| - 1]);
    }
  }

  lemma {:induction false} UnpaddedShape(v: Bytes)
    ensures |Unpadded(v)| % 4 == (if |v| % 3 == 0 then 0 else |v| % 3 + 1)
    ensures Ascii(Unpadded(v)) && '.' !in Unpadded(v)
    decreases |v|
  {
    hide Unpadded, Symbol, Quad;
    UnpaddedGroups(v);
    if |v| == 1 {
      SymbolFacts(v[0] as int / 4);
      SymbolFacts(v[0] as int % 4 * 16);
    } else if |v| == 2 {
      SymbolFacts(v[0] as int / 4);
      SymbolFacts(v[0] as int % 4 * 16 + v[1] as int / 16);
      SymbolFacts(v[1] as int % 16 * 4);
    } else if |v| >= 3 {
      UnpaddedShape(v[3..]);
      QuadFacts(v);
      assert |v[3..]| % 3 == |v| % 3;
    }
  }

  lemma QuadFacts(v: Bytes)
    requires |v| >= 3
    ensures Ascii(Quad(v)) && '.' !in Quad(v) && |Quad(v)| == 4
  {
    SymbolFacts(v[0] as int / 4);
    SymbolFacts(v[0] as int % 4 * 16 + v[1] as int / 16);
    SymbolFacts(v[1] as int % 16 * 4 + v[2] as int / 64);
    SymbolFacts(v[2] as int % 64);
  }

  /** Regrouping three bytes into four sextets loses nothing. */
  lemma Regroup(a: int, b: int, c: int)
    requires 0 <= a < 256 && 0 <= b < 256 && 0 <= c < 256
    ensures var w, x, y, z := a / 4, a % 4 * 16 + b / 16, b % 16 * 4 + c / 64, c % 64;
            && 0 <= w < 64 && 0 <= x < 64 && 0 <= y < 64 && 0 <= z < 64
            && w * 4 + x / 16 == a && x % 16 * 16 + y / 4 == b && y % 4 * 64 + z == c
  {
  }

  /** Four symbols decode to the three bytes they came from. */
  lemma DecodeQuad(v: Bytes, rest: string, out: Bytes)
    requires |v| >= 3
    ensures Decode64(Quad(v) + rest, 0, 0, 0, out) == Decode64(rest, 0, 0, 0, out + v[..3])
  {
    var a, b, c := v[0] as int, v[1] as int, v[2] as int;
    Regroup(a, b, c);
    var w, x, y, z := a / 4, a % 4 * 16 + b / 16, b % 16 * 4 + c / 64, c % 64;
    assert Quad(v) + rest == [Symbol(w)] + ([Symbol(x)] + ([Symbol(y)] + ([Symbol(z)] + rest)));
    assert v[..3] == [v[0], v[1], v[2]];
    DecodeFour(w, x, y, z, v[0], v[1], v[2], rest, out);
  }

  lemma DecodeFour(w: int, x: int, y: int, z: int, a: Byte, b: Byte, c: Byte, rest: string, out: Bytes)
    requires 0 <= w < 64 && 0 <= x < 64 && 0 <= y < 64 && 0 <= z < 64
    requires w * 4 + x / 16 == a as int && x % 16 * 16 + y / 4 == b as int && y % 4 * 64 + z == c as int
    ensures Decode64([Symbol(w)] + ([Symbol(x)] + ([Symbol(y)] + ([Symbol(z)] + rest))), 0, 0, 0, out) ==
            Decode64(rest, 0, 0, 0, out + [a, b, c])
  {
    hide Decode64, Symbol;
    DecodeOne(w, [Symbol(x)] + ([Symbol(y)] + ([Symbol(z)] + rest)), 0, 0, out);
    DecodeOne(x, [Symbol(y)] + ([Symbol(z)] + rest), 1, w, out);
    DecodeOne(y, [Symbol(z)] + rest, 2, x % 16, out + [a]);
    DecodeOne(z, rest, 3, y % 4, out + [a] + [b]);
    assert out + [a] + [b] + [c] == out + [a, b, c];
  }

  /** One symbol advances the decoder by one position of the group. */
  lemma DecodeOne(x: int, rest: string, quad: int, left: int, out: Bytes)
    requires 0 <= x < 64 && 0 <= quad < 4 && 0 <= left
    requires (quad == 1 ==> left < 64) && (quad == 2 ==> left < 16) && (quad == 3 ==> left < 4)
    ensures Decode64([Symbol(x)] + rest, quad, left, 0, out) ==
            if quad == 0 then Decode64(rest, 1, x, 0, out)
            else if quad == 1 then Decode64(rest, 2, x % 16, 0, out + [(left * 4 + x / 16) as Byte])
            else if quad == 2 then Decode64(rest, 3, x % 4, 0, out + [(left * 16 + x / 4) as Byte])
            else Decode64(rest, 0, 0, 0, out + [(left * 64 + x) as Byte])
  {
    SymbolFacts(x);
    assert ([Symbol(x)] + rest)[1..] == rest;
  }

  /** The text `_unb64` hands to the decoder. */
  function Repadded(v: Bytes): string { Unpadded(v) + Padding((-|Unpadded(v)|) % 4) }

  lemma RepaddedGroups(v: Bytes)
    ensures |v| == 0 ==> Repadded(v) == ""
    ensures |v| == 1 ==> Repadded(v) == [Symbol(v[0] as int / 4), Symbol(v[0] as int % 4 * 16)] + "=="
    ensures |v| == 2 ==> Repadded(v) == [Symbol(v[0] as int / 4), Symbol(v[0] as int % 4 * 16 + v[1] as int / 16),
                                         Symbol(v[1] as int % 16 * 4)] + "="
    ensures |v| >= 3 ==> Repadded(v) == Quad(v) + Repadded(v[3..])
  {
    hide Unpadded, Symbol, Quad;
    UnpaddedGroups(v);
    UnpaddedShape(v);
    if |v| >= 3 {
      QuadFacts(v);
      var tail := Unpadded(v[3..]);
      assert (-|Unpadded(v)|) % 4 == (-|tail|) % 4;
      assert Quad(v) + tail + Padding((-|tail|) % 4) == Quad(v) + (tail + Padding((-|tail|) % 4));
    }
  }

  lemma {:induction false} DecodeUndoesEncode(v: Bytes, out: Bytes)
    ensures Decode64(Repadded(v), 0, 0, 0, out) == Some(out + v)
    decreases |v|
  {
    assert Decode64("", 0, 0, 0, out) == Some(out);
    hide Repadded, Symbol, Quad, Decode64;
    RepaddedGroups(v);
    if |v| == 0 {
      assert out + v == out;
    } else if |v| == 1 {
      DecodeLastOne(v, out);
    } else if |v| == 2 {
      DecodeLastTwo(v, out);
    } else {
      DecodeUndoesEncode(v[3..], out + v[..3]);
      DecodeQuad(v, Repadded(v[3..]), out);
      assert out + v[..3] + v[3..] == out + v;
    }
  }

  lemma DecodeLastOne(v: Bytes, out: Bytes)
    requires |v| == 1
    ensures Decode64([Symbol(v[0] as int / 4), Symbol(v[0] as int % 4 * 16)] + "==", 0, 0, 0, out) == Some(out + v)
  {
    var a := v[0] as int;
    var s, t := Symbol(a / 4), Symbol(a % 4 * 16);
    DecodeOne(a / 4, [t, '=', '='], 0, 0, out);
    DecodeOne(a % 4 * 16, ['=', '='], 1, a / 4, out);
    assert [s, t] + "==" == [s] + [t, '=', '='] && [t, '=', '='] == [t] + ['=', '='];
    assert ['=', '='][1..] == ['='];
    assert v == [v[0]];
  }

  lemma DecodeLastTwo(v: Bytes, out: Bytes)
    requires |v| == 2
    ensures Decode64([Symbol(v[0] as int / 4), Symbol(v[0] as int % 4 * 16 + v[1] as int / 16),
                      Symbol(v[1] as int % 16 * 4)] + "=",
                     0, 0, 0, out) == Some(out + v)
  {
    var a, b := v[0] as int, v[1] as int;
    var x, y, z := a / 4, a % 4 * 16 + b / 16, b % 16 * 4;
    DecodeOne(x, [Symbol(y), Symbol(z), '='], 0, 0, out);
    DecodeOne(y, [Symbol(z), '='], 1, x, out);
    DecodeOne(z, ['='], 2, y % 16, out + [v[0]]);
    assert [Symbol(x), Symbol(y), Symbol(z)] + "=" == [Symbol(x)] + [Symbol(y), Symbol(z), '='];
    assert [Symbol(y), Symbol(z), '='] == [Symbol(y)] + [Symbol(z), '='];
    assert [Symbol(z), '='] == [Symbol(z)] + ['='];
    assert out + [v[0]] + [v[1]] == out + v;
  }

  /** Unpadded base64url undoes itself for every byte string. */
  lemma Base64RoundTrip(v: Bytes)
    ensures FromUnpadded(Unpadded(v)) == Some(v)
  {
    UnpaddedShape(v);
    DecodeUndoesEncode(v, []);
    assert [] + v == v;
  }

  // ----- signed cursors -----

  datatype JsonValue = Text(text: string) | Object(fields: map<string, JsonValue>) | OtherJson(rest: string)

  /** HMAC-SHA-256 and JSON, as functions, and the signing key. */
  datatype Codec = Codec(key: Bytes, mac: (Bytes, Bytes) -> Bytes, dumps: JsonValue -> Bytes,
                         loads: Bytes -> Option<JsonValue>)

  ghost predicate ParsesBack(c: Codec) { forall v :: c.loads(c.dumps(v)) == Some(v) }

  const FORMAT := "meridian.oci.cursor.v1"

  predicate WordChar(c: char) { 'A' <= c <= 'Z' || 'a' <= c <= 'z' || '0' <= c <= '9' || c == '_' }

  /** The OCI tag grammar. */
  predicate ValidTag(t: string) {
    1 <= |t| <= 128 && WordChar(t[0]) && forall i :: 0 <= i < |t| ==> WordChar(t[i]) || t[i] == '.' || t[i] == '-'
  }

  function Payload(last: string): JsonValue { Object(map["formatVersion" := Text(FORMAT), "last" := Text(last)]) }

  function Encode(c: Codec, last: string): string {
    var payload := c.dumps(Payload(last));
    "v1" + "." + (Unpadded(payload) + "." + Unpadded(c.mac(c.key, payload)))
  }

  /** The text before and after the first dot. */
  function SplitDot(s: string): Option<(string, string)> {
    if s == "" then None
    else if s[0] == '.' then Some(("", s[1..]))
    else match SplitDot(s[1..])
      case None => None
      case Some((a, b)) => Some(([s[0]] + a, b))
  }

  /** `split(".", 2)` into exactly three fields, the last two decoded. */
  function Fields(cursor: string): Option<(string, Bytes, Bytes)> {
    match SplitDot(cursor)
    case None => None
    case Some((version, rest)) =>
      match SplitDot(rest)
      case None => None
      case Some((first, second)) =>
        match (FromUnpadded(first), FromUnpadded(second))
        case (Some(payload), Some(signature)) => Some((version, payload, signature))
        case _ => None
  }

  function LastOf(v: JsonValue): Result<string> {
    if !v.Object? || v.fields.Keys != {"formatVersion", "last"} then Err(InvalidRequest)
    else if v.fields["formatVersion"] != Text(FORMAT) || !v.fields["last"].Text? then Err(InvalidRequest)
    else if !ValidTag(v.fields["last"].text) then Err(InvalidRequest)
    else Ok(v.fields["last"].text)
  }

  function Decode(c: Codec, cursor: string): (r: Result<string>)
    ensures r.Err? ==> r.error == InvalidRequest
  {
    match Fields(cursor)
    case None => Err(InvalidRequest)
    case Some((version, payload, signature)) =>
      if version != "v1" || signature != c.mac(c.key, payload) then Err(InvalidRequest)
      else match c.loads(payload)
        case None => Err(InvalidRequest)
        case Some(v) => LastOf(v)
  }

  lemma {:induction false} SplitJoined(a: string, b: string)
    requires '.' !in a
    ensures SplitDot(a + "." + b) == Some((a, b))
  {
    var s := a + "." + b;
    if a == "" {
      assert s[1..] == b;
    } else {
      assert s[1..] == a[1..] + "." + b;
      SplitJoined(a[1..], b);
      assert [s[0]] + a[1..] == a;
    }
  }

  /** A cursor carries its tag back exactly when the tag is grammatical; any other tag is refused. */
  lemma CursorRoundTrip(c: Codec, last: string)
    requires ParsesBack(c)
    ensures Decode(c, Encode(c, last)) == if ValidTag(last) then Ok(last) else Err(InvalidRequest)
    ensures ValidTag(last) <==>
            && 1 <= |last| <= 128 && last[0] != '.' && last[0] != '-'
            && forall i :: 0 <= i < |last| ==>
                 || 'A' <= last[i] <= 'Z' || 'a' <= last[i] <= 'z' || '0' <= last[i] <= '9'
                 || last[i] in {'_', '.', '-'}
  {
    assert ValidTag(last) <==>
           && 1 <= |last| <= 128 && WordChar(last[0])
           && forall i :: 0 <= i < |last| ==> WordChar(last[i]) || last[i] == '.' || last[i] == '-';
    hide Unpadded, FromUnpadded, ValidTag, SplitDot;
    var payload := c.dumps(Payload(last));
    var first, second := Unpadded(payload), Unpadded(c.mac(c.key, payload));
    UnpaddedShape(payload);
    Base64RoundTrip(payload);
    Base64RoundTrip(c.mac(c.key, payload));
    SplitJoined("v1", first + "." + second);
    SplitJoined(first, second);
    PayloadLast(last);
  }

  lemma PayloadLast(last: string)
    ensures LastOf(Payload(last)) == if ValidTag(last) then Ok(last) else Err(InvalidRequest)
  {
    hide ValidTag;
    assert Payload(last).fields.Keys == {"formatVersion", "last"};
    assert "formatVersion" != "last" by { assert |"formatVersion"| != |"last"|; }
  }

  /** Whatever text is accepted, its payload is signed with the key, and it names a grammatical tag. */
  lemma AcceptedCursorIsSigned(c: Codec, cursor: string)
    requires Decode(c, cursor).Ok?
    ensures Fields(cursor).Some?
    ensures var (version, payload, signature) := Fields(cursor).value;
            && version == "v1" && signature == c.mac(c.key, payload)
            && c.loads(payload) == Some(Object(map["formatVersion" := Text("meridian.oci.cursor.v1"),
                                                   "last" := Text(Decode(c, cursor).value)]))
    ensures ValidTag(Decode(c, cursor).value)
    ensures var tag := Decode(c, cursor).value;
            && 1 <= |tag| <= 128 && tag[0] != '.' && tag[0] != '-'
            && forall i :: 0 <= i < |tag| ==>
                 || 'A' <= tag[i] <= 'Z' || 'a' <= tag[i] <= 'z' || '0' <= tag[i] <= '9' || tag[i] in "_.-"
  {
    hide Fields;
    var v := c.loads(Fields(cursor).value.1).value;
    assert v.fields == Payload(Decode(c, cursor).value).fields;
  }
}
