/**
 * The owner's dish card (components/dish/EditMenuDishBlock.tsx): the
 * YouTube embed URL it builds, whether it shows a video at all, and the
 * per-restaurant favourite and eat-later counts it reads from storage.
 */
module DishBlock {
  import opened Wrappers
  import opened JsStrings
  import opened Browser

  /* ---------- application/x-www-form-urlencoded serializer ---------- */

  predicate IsAsciiAlphanumeric(c: char)
  {
    'a' <= c <= 'z' || 'A' <= c <= 'Z' || '0' <= c <= '9'
  }

  /** Left alone by the serializer (section 5.2 of the WHATWG URL Standard). */
  predicate IsUnreserved(c: char)
  {
    IsAsciiAlphanumeric(c) || c == '*' || c == '-' || c == '.' || c == '_'
  }

  /** Every character the serializer can emit for a name or a value. */
  predicate IsEncodedChar(c: char)
  {
    IsUnreserved(c) || c == '+' || c == '%'
  }

  function HexDigit(d: nat): (c: char)
    requires d < 16
    ensures IsAsciiAlphanumeric(c)
  {
    if d < 10 then ('0' as int + d) as char else ('A' as int + d - 10) as char
  }

  /** The UTF-8 encoding of a code point. */
  function Utf8Bytes(cp: nat): (bytes: seq<nat>)
    requires cp < 0x110000
    ensures 1 <= |bytes| <= 4 && forall i :: 0 <= i < |bytes| ==> bytes[i] < 256
  {
    if cp < 0x80 then [cp]
    else if cp < 0x800 then [0xC0 + cp / 0x40, 0x80 + cp % 0x40]
    else if cp < 0x10000 then [0xE0 + cp / 0x1000, 0x80 + (cp / 0x40) % 0x40, 0x80 + cp % 0x40]
    else [0xF0 + cp / 0x40000, 0x80 + (cp / 0x1000) % 0x40, 0x80 + (cp / 0x40) % 0x40, 0x80 + cp % 0x40]
  }

  /** "%XX" for each byte, upper-case hexadecimal. */
  function PercentEncode(bytes: seq<nat>): (r: string)
    requires forall i :: 0 <= i < |bytes| ==> bytes[i] < 256
    ensures forall i :: 0 <= i < |r| ==> IsEncodedChar(r[i])
    ensures |r| == 3 * |bytes|
  {
    if bytes == [] then []
    else ['%', HexDigit(bytes[0] / 16), HexDigit(bytes[0] % 16)] + PercentEncode(bytes[1..])
  }

  function EncodeChar(c: char): (r: string)
    ensures |r| > 0 && forall i :: 0 <= i < |r| ==> IsEncodedChar(r[i])
  {
    if IsUnreserved(c) then [c]
    else if c == ' ' then "+"
    else PercentEncode(Utf8Bytes(c as int))
  }

  /** The form-urlencoded serializer applied to one name or value. */
  function Encode(s: string): (r: string)
    ensures forall i :: 0 <= i < |r| ==> IsEncodedChar(r[i])
    ensures |r| >= |s|
  {
    if s == [] then [] else EncodeChar(s[0]) + Encode(s[1..])
  }

  /** Names and values made of unreserved characters are written as they are. */
  lemma {:induction false} EncodeUnreserved(s: string)
    requires forall i :: 0 <= i < |s| ==> IsUnreserved(s[i])
    ensures Encode(s) == s
  {
    if s != [] {
      EncodeUnreserved(s[1..]);
    }
  }

  /* ---------- URLSearchParams ---------- */

  type Params = seq<(string, string)>

  predicate HasName(ps: Params, name: string)
  {
    exists i :: 0 <= i < |ps| && ps[i].0 == name
  }

  function RemoveName(ps: Params, name: string): (r: Params)
    ensures !HasName(r, name)
  {
    if ps == [] then []
    else if ps[0].0 == name then RemoveName(ps[1..], name)
    else [ps[0]] + RemoveName(ps[1..], name)
  }

  function ReplaceFirst(ps: Params, name: string, value: string): Params
  {
    if ps == [] then []
    else if ps[0].0 == name then [(name, value)] + RemoveName(ps[1..], name)
    else [ps[0]] + ReplaceFirst(ps[1..], name, value)
  }

  /** `params.set(name, value)`: replace the first pair with that name and drop the others, or append. */
  function SetParam(ps: Params, name: string, value: string): (r: Params)
    ensures !HasName(ps, name) ==> r == ps + [(name, value)]
  {
    if HasName(ps, name) then ReplaceFirst(ps, name, value) else ps + [(name, value)]
  }

  /** A character a serialized query may hold: an encoded one or a separator. */
  predicate IsQueryChar(c: char)
  {
    IsEncodedChar(c) || c == '=' || c == '&'
  }

  lemma QueryCharsConcat(a: string, b: string)
    requires forall i :: 0 <= i < |a| ==> IsQueryChar(a[i])
    requires forall i :: 0 <= i < |b| ==> IsQueryChar(b[i])
    ensures forall i :: 0 <= i < |a + b| ==> IsQueryChar((a + b)[i])
  {
  }

  /** `params.toString()`: encoded pairs "name=value" joined by '&'. */
  function Serialize(ps: Params): (r: string)
    ensures r == [] <==> ps == []
    ensures forall i :: 0 <= i < |r| ==> IsQueryChar(r[i])
  {
    if ps == [] then []
    else
      var name, value := Encode(ps[0].0), Encode(ps[0].1);
      QueryCharsConcat(name, "=");
      QueryCharsConcat(name + "=", value);
      var pair := name + "=" + value;
      if |ps| == 1 then pair
      else
        QueryCharsConcat(pair, "&");
        QueryCharsConcat(pair + "&", Serialize(ps[1..]));
        pair + "&" + Serialize(ps[1..])
  }

  /* ---------- embed URL ---------- */

  const EmbedBase := "https://www.youtube.com/embed/"

  function EmbedParams(videoId: string, autoplay: bool, loop: bool): Params
  {
    var afterAutoplay := if autoplay then SetParam([], "autoplay", "1") else [];
    if loop then SetParam(SetParam(afterAutoplay, "loop", "1"), "playlist", videoId) else afterAutoplay
  }

  /** The parameters in the order they are set: autoplay, then loop and playlist. */
  function ExpectedParams(videoId: string, autoplay: bool, loop: bool): Params
  {
    (if autoplay then [("autoplay", "1")] else []) +
    (if loop then [("loop", "1"), ("playlist", videoId)] else [])
  }

  /** Each name is set once, so every `set` appends: the pairs come out in insertion order. */
  lemma EmbedParamsInOrder(videoId: string, autoplay: bool, loop: bool)
    ensures EmbedParams(videoId, autoplay, loop) == ExpectedParams(videoId, autoplay, loop)
  {
    var a: Params := if autoplay then [("autoplay", "1")] else [];
    assert !HasName(a, "loop");
    var b := a + [("loop", "1")];
    assert !HasName(b, "playlist");
  }

  /**
   * `youtubeEmbedUrl`: the base and the video id, followed by '?' and the
   * serialized parameters in insertion order exactly when autoplay or loop
   * is on.
   */
  function YoutubeEmbedUrl(videoId: string, autoplay: bool, loop: bool): (r: string)
    ensures r == EmbedBase + videoId +
      (if autoplay || loop then "?" + Serialize(ExpectedParams(videoId, autoplay, loop)) else "")
  {
    EmbedParamsInOrder(videoId, autoplay, loop);
    var qs := Serialize(EmbedParams(videoId, autoplay, loop));
    EmbedBase + videoId + (if qs != "" then "?" + qs else "")
  }

  predicate AllUnreserved(s: string)
  {
    forall i :: 0 <= i < |s| ==> IsUnreserved(s[i])
  }

  /** A pair of unreserved texts is written "name=value", and a following pair after an '&'. */
  lemma SerializeUnreservedPair(name: string, value: string, rest: Params)
    requires AllUnreserved(name) && AllUnreserved(value)
    ensures Serialize([(name, value)] + rest) ==
      name + "=" + value + (if rest == [] then "" else "&" + Serialize(rest))
  {
    EncodeUnreserved(name);
    EncodeUnreserved(value);
    assert ([(name, value)] + rest)[1..] == rest;
  }

  /** With both flags off the URL is the base and the id, whatever the id. */
  lemma EmbedUrlPlain(videoId: string)
    ensures YoutubeEmbedUrl(videoId, false, false) == EmbedBase + videoId
  {
  }

  /** For an id without '?', the URL contains '?' exactly when a parameter is set. */
  lemma QueryMarkIffParams(videoId: string, autoplay: bool, loop: bool)
    requires '?' !in videoId
    ensures '?' in YoutubeEmbedUrl(videoId, autoplay, loop) <==> autoplay || loop
  {
    var head := EmbedBase + videoId;
    assert '?' !in head;
    if autoplay || loop {
      assert YoutubeEmbedUrl(videoId, autoplay, loop)[|head|] == '?';
    } else {
      assert YoutubeEmbedUrl(videoId, autoplay, loop) == head;
    }
  }

  /* ---------- the card ---------- */

  /** `Boolean(dish.videoUrl && dish.videoUrl.trim())`: a URL with some character that is not white space. */
  predicate HasVideo(videoUrl: Option<string>)
    ensures HasVideo(videoUrl) <==>
      videoUrl.Some? && exists i :: 0 <= i < |videoUrl.value| && !IsWhiteSpace(videoUrl.value[i])
  {
    match videoUrl
    case None => false
    case Some(url) => TrimBlank(url); url != "" && Trim(url) != ""
  }

  /** The iframe source the card renders: only with a video, and never with autoplay or loop. */
  function CardVideoSrc(videoUrl: Option<string>): (src: Option<string>)
    ensures src.Some? <==> HasVideo(videoUrl)
    ensures src.Some? ==> src.value == EmbedBase + videoUrl.value
  {
    if HasVideo(videoUrl) then
      Some(YoutubeEmbedUrl(videoUrl.value, false, false))
    else None
  }

  /* ---------- favourite and eat-later counts ---------- */

  datatype CountKind = Favorite | EatLater

  function CountKeyPrefix(kind: CountKind): string
  {
    match kind
    case Favorite => "ody_dish_favorite_counts_"
    case EatLater => "ody_dish_eat_later_counts_"
  }

  function CountKey(kind: CountKind, restaurantId: string): string
  {
    CountKeyPrefix(kind) + restaurantId
  }

  /** Different kinds or different restaurants never share a storage key. */
  lemma CountKeysDistinct(k1: CountKind, r1: string, k2: CountKind, r2: string)
    ensures CountKey(k1, r1) == CountKey(k2, r2) ==> k1 == k2 && r1 == r2
  {
    if k1 != k2 {
      assert CountKey(k1, r1)[9] != CountKey(k2, r2)[9];
    } else if CountKey(k1, r1) == CountKey(k2, r2) {
      var n := |CountKeyPrefix(k1)|;
      assert r1 == CountKey(k1, r1)[n..];
      assert r2 == CountKey(k2, r2)[n..];
    }
  }

  /** The number stored for a dish under a key, if the stored text is non-empty, parses and has it. */
  function StoredCount(items: map<string, string>, parse: string -> Option<map<string, int>>,
                       key: string, dishId: string): Option<int>
  {
    if key in items && items[key] != "" && parse(items[key]).Some? && dishId in parse(items[key]).value
    then Some(parse(items[key]).value[dishId])
    else None
  }

  /**
   * The count shown for a dish: 0 without a restaurant id, without a stored
   * value, when the stored text does not parse, or when the dish is not in
   * the parsed record; otherwise the stored number. `JSON.parse` is the
   * `parse` argument, `None` standing for a throw.
   */
  function DishCount(items: map<string, string>, parse: string -> Option<map<string, int>>,
                     kind: CountKind, restaurantId: Option<string>, dishId: string): (n: int)
    ensures !Truthy(restaurantId) ==> n == 0
    ensures Truthy(restaurantId) ==>
      n == StoredCount(items, parse, CountKey(kind, restaurantId.value), dishId).GetOr(0)
  {
    if !Truthy(restaurantId) then 0
    else
      var key := CountKey(kind, restaurantId.value);
      var raw := if key in items then Some(items[key]) else None;
      if !Truthy(raw) then 0
      else match parse(raw.value)
        case None => 0
        case Some(counts) => if dishId in counts then counts[dishId] else 0
  }
}
