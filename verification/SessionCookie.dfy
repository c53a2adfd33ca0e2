/** The session cookie: serializing a session, framing, percent-encoding and signing it, and the way back. */
module SessionCookie {
  import opened Text

  newtype byte = x: int | 0 <= x < 256
  type Bytes = seq<byte>

  const NUL: byte := 0x00
  const SPACE: byte := 0x20
  const PERCENT: byte := 0x25
  const PLUS: byte := 0x2B
  const HYPHEN: byte := 0x2D
  const COLON: byte := 0x3A

  predicate IsAscii(s: string) {
    forall c | c in s :: c as int < 128
  }

  function Ascii(s: string): (b: Bytes)
    requires IsAscii(s)
    ensures |b| == |s|
  {
    seq(|s|, i requires 0 <= i < |s| => assert s[i] in s; s[i] as int as byte)
  }

  function Chars(b: Bytes): string {
    seq(|b|, i requires 0 <= i < |b| => b[i] as int as char)
  }

  // ---------- percent-encoding, section 2.1 of RFC 3986, a space being written as + ----------

  predicate Unreserved(b: byte) {
    || 0x30 <= b <= 0x39 || 0x41 <= b <= 0x5A || 0x61 <= b <= 0x7A
    || b == HYPHEN || b == 0x5F || b == 0x2E || b == 0x7E
  }

  function HexDigit(n: nat): byte
    requires n < 16
  {
    if n < 10 then (0x30 + n) as byte else (0x37 + n) as byte
  }

  function Unhex(b: byte): Option<nat> {
    if 0x30 <= b <= 0x39 then Some(b as int - 0x30)
    else if 0x41 <= b <= 0x46 then Some(b as int - 0x37)
    else if 0x61 <= b <= 0x66 then Some(b as int - 0x57)
    else None
  }

  function EscapeByte(b: byte): Bytes {
    if b == SPACE then [PLUS]
    else if Unreserved(b) then [b]
    else [PERCENT, HexDigit(b as int / 16), HexDigit(b as int % 16)]
  }

  function QueryEscape(s: Bytes): Bytes {
    if s == [] then [] else EscapeByte(s[0]) + QueryEscape(s[1..])
  }

  /** None is an invalid escape. */
  function QueryUnescape(s: Bytes): Option<Bytes> {
    if s == [] then Some([])
    else if s[0] == PERCENT then
      if |s| < 3 || Unhex(s[1]).None? || Unhex(s[2]).None? then None
      else Prepend((Unhex(s[1]).value * 16 + Unhex(s[2]).value) as byte, QueryUnescape(s[3..]))
    else Prepend(if s[0] == PLUS then SPACE else s[0], QueryUnescape(s[1..]))
  }

  function Prepend(b: byte, rest: Option<Bytes>): Option<Bytes> {
    match rest
    case None => None
    case Some(r) => Some([b] + r)
  }

  lemma UnescapeOneByte(b: byte, rest: Bytes)
    ensures QueryUnescape(EscapeByte(b) + rest) == Prepend(b, QueryUnescape(rest))
  {
    var s := EscapeByte(b) + rest;
    if b == SPACE || Unreserved(b) {
      assert s[1..] == rest;
    } else {
      assert s[3..] == rest;
      assert s[1] == HexDigit(b as int / 16) && s[2] == HexDigit(b as int % 16);
    }
  }

  lemma {:induction false} UnescapeEscape(s: Bytes)
    ensures QueryUnescape(QueryEscape(s)) == Some(s)
  {
    if s != [] {
      UnescapeEscape(s[1..]);
      UnescapeOneByte(s[0], QueryEscape(s[1..]));
      assert [s[0]] + s[1..] == s;
    }
  }

  // ---------- NUL key COLON value NUL ----------

  function Frame(key: Bytes, value: Bytes): Bytes {
    [NUL] + key + [COLON] + value + [NUL]
  }

  /** What lies before and after the first b, if there is one. */
  function Cut(s: Bytes, b: byte): (r: Option<(Bytes, Bytes)>)
    ensures r.None? ==> b !in s
    ensures r.Some? ==> s == r.value.0 + [b] + r.value.1 && b !in r.value.0
  {
    if s == [] then None
    else if s[0] == b then Some(([], s[1..]))
    else match Cut(s[1..], b)
      case None => None
      case Some((head, rest)) => assert s == [s[0]] + s[1..]; Some(([s[0]] + head, rest))
  }

  lemma {:induction false} CutAt(head: Bytes, b: byte, rest: Bytes)
    requires b !in head
    ensures Cut(head + [b] + rest, b) == Some((head, rest))
  {
    var s := head + [b] + rest;
    if head == [] {
      assert s[1..] == rest;
    } else {
      assert s[1..] == head[1..] + [b] + rest;
      assert head[0] in head && head == [head[0]] + head[1..];
      CutAt(head[1..], b, rest);
    }
  }

  /** Cutting at the first b leaves everything that lies behind any b. */
  lemma {:induction false} CutBefore(head: Bytes, b: byte, rest: Bytes) returns (mid: Bytes)
    ensures Cut(head + [b] + rest, b).Some? && |Cut(head + [b] + rest, b).value.0| <= |head|
    ensures Cut(head + [b] + rest, b).value.1 == mid + rest
  {
    var s := head + [b] + rest;
    if head == [] {
      assert s[1..] == rest;
      mid := [];
    } else {
      assert s[1..] == head[1..] + [b] + rest;
      if head[0] == b {
        mid := head[1..] + [b];
      } else {
        mid := CutBefore(head[1..], b, rest);
      }
    }
  }

  datatype Match = Match(before: Bytes, key: Bytes, value: Bytes, rest: Bytes)

  /** The expression \x00([^:]*):([^\x00]*)\x00 matches between m.before and m.rest with groups m.key and m.value. */
  ghost predicate Matches(s: Bytes, m: Match) {
    s == m.before + Frame(m.key, m.value) + m.rest && COLON !in m.key && NUL !in m.value
  }

  /** The first match: it starts at the first NUL, if a colon and then another NUL follow. */
  function FirstMatch(s: Bytes): (r: Option<Match>)
    ensures r.Some? ==> |r.value.rest| < |s|
  {
    match Cut(s, NUL)
    case None => None
    case Some((before, afterNul)) =>
      match Cut(afterNul, COLON)
      case None => None
      case Some((key, afterColon)) =>
        match Cut(afterColon, NUL)
        case None => None
        case Some((value, rest)) => Some(Match(before, key, value, rest))
  }

  lemma FrameSplits(m: Match)
    ensures m.before + Frame(m.key, m.value) + m.rest == m.before + [NUL] + (m.key + [COLON] + (m.value + [NUL] + m.rest))
  {
  }

  lemma FirstMatchOfFrame(m: Match)
    requires NUL !in m.before && COLON !in m.key && NUL !in m.value
    ensures FirstMatch(m.before + Frame(m.key, m.value) + m.rest) == Some(m)
  {
    FrameSplits(m);
    CutAt(m.before, NUL, m.key + [COLON] + (m.value + [NUL] + m.rest));
    CutAt(m.key, COLON, m.value + [NUL] + m.rest);
    CutAt(m.value, NUL, m.rest);
  }

  lemma Regroup(a: Bytes, b: Bytes, c: byte, d: Bytes)
    ensures a + (b + [c] + d) == (a + b) + [c] + d
  {
  }

  lemma MatchHasParts(s: Bytes, m: Match)
    requires Matches(s, m)
    ensures FirstMatch(s).Some? && |FirstMatch(s).value.before| <= |m.before|
  {
    var afterColon := m.value + [NUL] + m.rest;
    FrameSplits(m);
    var mid := CutBefore(m.before, NUL, m.key + [COLON] + afterColon);
    Regroup(mid, m.key, COLON, afterColon);
    var mid' := CutBefore(mid + m.key, COLON, afterColon);
    Regroup(mid', m.value, NUL, m.rest);
    var mid'' := CutBefore(mid' + m.value, NUL, m.rest);
  }

  /** FirstMatch is the one leftmost match, and there is none only if the expression matches nowhere. */
  lemma FirstMatchIsLeftmost(s: Bytes, m: Match)
    requires Matches(s, m)
    ensures FirstMatch(s).Some? && |FirstMatch(s).value.before| <= |m.before|
    ensures |FirstMatch(s).value.before| == |m.before| ==> FirstMatch(s) == Some(m)
  {
    MatchHasParts(s, m);
    if |FirstMatch(s).value.before| == |m.before| {
      assert m.before == s[..|m.before|] == Cut(s, NUL).value.0;
      FirstMatchOfFrame(m);
    }
  }

  lemma FirstMatchMatches(s: Bytes)
    ensures FirstMatch(s).Some? ==> Matches(s, FirstMatch(s).value)
  {
    if FirstMatch(s).Some? {
      FrameSplits(FirstMatch(s).value);
    }
  }

  /** FindAllStringSubmatch: successive matches that do not overlap. */
  function AllMatches(s: Bytes): seq<(Bytes, Bytes)>
    decreases |s|
  {
    match FirstMatch(s)
    case None => []
    case Some(m) => [(m.key, m.value)] + AllMatches(m.rest)
  }

  /** The callback of DecodeCookie: a later match of the same key wins. */
  function Collected(matches: seq<(Bytes, Bytes)>): map<Bytes, Bytes> {
    if matches == [] then map[]
    else
      var last := matches[|matches| - 1];
      Collected(matches[..|matches| - 1])[last.0 := last.1]
  }

  /** The keys and values in the order in which GetCookie walked them. */
  function Framed(order: seq<Bytes>, m: map<Bytes, Bytes>): Bytes
    requires forall k :: k in order ==> k in m
  {
    if order == [] then [] else Frame(order[0], m[order[0]]) + Framed(order[1..], m)
  }

  function Pairs(order: seq<Bytes>, m: map<Bytes, Bytes>): seq<(Bytes, Bytes)>
    requires forall k :: k in order ==> k in m
  {
    seq(|order|, i requires 0 <= i < |order| => (order[i], m[order[i]]))
  }

  ghost predicate Enumerates(order: seq<Bytes>, keys: set<Bytes>) {
    (forall i, j :: 0 <= i < j < |order| ==> order[i] != order[j]) && forall k :: k in keys <==> k in order
  }

  /** GetCookie panics on anything else. */
  predicate Allowed(m: map<Bytes, Bytes>) {
    forall k :: k in m ==> COLON !in k && NUL !in k && NUL !in m[k]
  }

  lemma ParseFramedStep(key: Bytes, value: Bytes, rest: Bytes)
    requires COLON !in key && NUL !in value
    ensures AllMatches(Frame(key, value) + rest) == [(key, value)] + AllMatches(rest)
  {
    FirstMatchOfFrame(Match([], key, value, rest));
    assert [] + Frame(key, value) + rest == Frame(key, value) + rest;
  }

  lemma {:induction false} ParseFramed(order: seq<Bytes>, m: map<Bytes, Bytes>)
    requires (forall k :: k in order ==> k in m) && Allowed(m)
    ensures AllMatches(Framed(order, m)) == Pairs(order, m)
  {
    if order != [] {
      ParseFramedStep(order[0], m[order[0]], Framed(order[1..], m));
      ParseFramed(order[1..], m);
      assert Pairs(order, m) == [(order[0], m[order[0]])] + Pairs(order[1..], m);
    }
  }

  lemma {:induction false} CollectPairs(order: seq<Bytes>, m: map<Bytes, Bytes>)
    requires forall k :: k in order ==> k in m
    ensures Collected(Pairs(order, m)) == map k | k in order :: m[k]
  {
    if order != [] {
      var init, last := order[..|order| - 1], order[|order| - 1];
      CollectPairs(init, m);
      assert Pairs(order, m)[..|order| - 1] == Pairs(init, m);
      assert forall k :: k in order <==> k in init || k == last;
    }
  }

  /** Whatever order the map was walked in, unescaping and parsing give it back. */
  lemma FramedRoundTrip(order: seq<Bytes>, m: map<Bytes, Bytes>)
    requires Enumerates(order, m.Keys) && Allowed(m)
    ensures ParseKeyValueCookie(QueryEscape(Framed(order, m))) == m
  {
    UnescapeEscape(Framed(order, m));
    ParseFramed(order, m);
    CollectPairs(order, m);
    assert m == map k | k in order :: m[k];
  }

  function ParseKeyValueCookie(val: Bytes): map<Bytes, Bytes> {
    var text := QueryUnescape(val);
    Collected(AllMatches(if text.Some? then text.value else []))
  }

  // ---------- sessions ----------

  const TIMESTAMP_KEY: Bytes := Ascii("_TS")
  const SESSION_VALUE: Bytes := Ascii("session")
  const OBJECT_KEY: Bytes := Ascii("_object_")
  const MAP_KEY: Bytes := Ascii("_map_")

  /** A string, the map of JSON texts, or any other object. */
  datatype Value = Text(text: Bytes) | Objects(json: map<Bytes, Bytes>) | Other(id: nat)

  /** encoding/json: an object may fail to marshal, a map of strings never does, a text may fail to unmarshal. */
  datatype Json = Json(marshal: Value -> Option<Bytes>, encode: map<Bytes, Bytes> -> Bytes,
                       decode: Bytes -> Option<map<Bytes, Bytes>>)

  type Entries = map<Bytes, Value>

  predicate Reserved(key: Bytes) {
    key == OBJECT_KEY || key == MAP_KEY
  }

  /** getSessionJsonMap: a missing or corrupted object entry counts as an empty map. */
  function JsonMap(e: Entries): map<Bytes, Bytes> {
    if OBJECT_KEY in e && e[OBJECT_KEY].Objects? then e[OBJECT_KEY].json else map[]
  }

  function TextEntries(e: Entries): map<Bytes, Bytes> {
    map k | k in e && !Reserved(k) && e[k].Text? :: e[k].text
  }

  function Marshalled(json: Json, e: Entries): map<Bytes, Bytes> {
    map k | k in e && !Reserved(k) && !e[k].Text? && json.marshal(e[k]).Some? :: json.marshal(e[k]).value
  }

  /** The objects as JSON: those not unpacked since the last request, and those present. */
  function ObjectMap(json: Json, e: Entries): map<Bytes, Bytes> {
    JsonMap(e) + Marshalled(json, e)
  }

  function Serialized(json: Json, e: Entries): map<Bytes, Bytes> {
    var objects := ObjectMap(json, e);
    if objects == map[] then TextEntries(e) else TextEntries(e)[OBJECT_KEY := json.encode(objects)]
  }

  /** What Load makes of one pair; None leaves the entry alone. */
  function Unpacked(json: Json, key: Bytes, text: Bytes): Option<Value> {
    if key != OBJECT_KEY then Some(Text(text))
    else match json.decode(text)
      case None => None
      case Some(m) => Some(Objects(m))
  }

  function Loaded(json: Json, e: Entries, data: map<Bytes, Bytes>): Entries {
    e + AllUnpacked(json, data)
  }

  /** SessionTimeoutExpiredOrMissing, at a time in Unix seconds. */
  predicate ExpiredOrMissing(e: Entries, now: int)
    requires TIMESTAMP_KEY in e ==> e[TIMESTAMP_KEY].Text?
  {
    if TIMESTAMP_KEY !in e then true
    else if e[TIMESTAMP_KEY] == Text(SESSION_VALUE) then false
    else ParseInt(Chars(e[TIMESTAMP_KEY].text)).value < now
  }

  /** The entry GetCookie writes under the timestamp key; times in nanoseconds. */
  function Timestamp(e: Entries, now: int, expireAfter: int): Bytes {
    if expireAfter == 0 || (TIMESTAMP_KEY in e && e[TIMESTAMP_KEY] == Text(SESSION_VALUE)) then SESSION_VALUE
    else UnixText((now + expireAfter) / 1_000_000_000)
  }

  function UnixText(seconds: int): Bytes {
    FormatIsAscii(seconds);
    Ascii(FormatInt(seconds))
  }

  lemma FormatIsAscii(n: int)
    ensures IsAscii(FormatInt(n))
  {
    assert forall c :: IsDigit(c) ==> c as int < 128;
  }

  /** The session as GetCookie leaves it. */
  function Stamped(e: Entries, now: int, expireAfter: int): Entries {
    var t := e[TIMESTAMP_KEY := Text(Timestamp(e, now, expireAfter))];
    t[OBJECT_KEY := Objects(JsonMap(t))]
  }

  /** The part of a map whose keys have been walked. */
  function Walked<V>(m: map<Bytes, V>, done: set<Bytes>): map<Bytes, V> {
    map k | k in m && k in done :: m[k]
  }

  lemma WalkedStep<V>(m: map<Bytes, V>, done: set<Bytes>, key: Bytes)
    ensures Walked(m, done + {key}) == if key in m then Walked(m, done)[key := m[key]] else Walked(m, done)
    ensures m.Keys <= done ==> Walked(m, done) == m
  {
  }

  lemma TextStep(e: Entries, done: set<Bytes>, key: Bytes)
    ensures Walked(TextEntries(e), done + {key})
         == if key in e && !Reserved(key) && e[key].Text? then Walked(TextEntries(e), done)[key := e[key].text]
            else Walked(TextEntries(e), done)
  {
    WalkedStep(TextEntries(e), done, key);
  }

  lemma ObjectStep(json: Json, e: Entries, done: set<Bytes>, key: Bytes)
    ensures JsonMap(e) + Walked(Marshalled(json, e), done + {key})
         == if key in e && !Reserved(key) && !e[key].Text? && json.marshal(e[key]).Some?
            then (JsonMap(e) + Walked(Marshalled(json, e), done))[key := json.marshal(e[key]).value]
            else JsonMap(e) + Walked(Marshalled(json, e), done)
  {
    WalkedStep(Marshalled(json, e), done, key);
  }

  lemma LoadedStep(json: Json, e: Entries, data: map<Bytes, Bytes>, done: set<Bytes>, key: Bytes)
    requires key in data
    ensures Loaded(json, e, Walked(data, done + {key}))
         == match Unpacked(json, key, data[key])
            case None => Loaded(json, e, Walked(data, done))
            case Some(v) => Loaded(json, e, Walked(data, done))[key := v]
  {
    WalkedStep(data, done, key);
    var before, after := Walked(data, done), Walked(data, done + {key});
    UnpackedStep(json, before, key, data[key]);
    assert after == before[key := data[key]];
  }

  function AllUnpacked(json: Json, data: map<Bytes, Bytes>): Entries {
    map k | k in data && Unpacked(json, k, data[k]).Some? :: Unpacked(json, k, data[k]).value
  }

  lemma UnpackedStep(json: Json, data: map<Bytes, Bytes>, key: Bytes, text: Bytes)
    requires key in data ==> data[key] == text
    ensures AllUnpacked(json, data[key := text])
         == match Unpacked(json, key, text)
            case None => AllUnpacked(json, data)
            case Some(v) => AllUnpacked(json, data)[key := v]
  {
  }

  class Session {
    var entries: Entries

    constructor ()
      ensures entries == map[]
    {
      entries := map[];
    }

    method GetSessionJsonMap() returns (m: map<Bytes, Bytes>)
      modifies this
      ensures m == JsonMap(old(entries))
      ensures entries == old(entries)[OBJECT_KEY := Objects(m)]
    {
      if OBJECT_KEY in entries {
        if !entries[OBJECT_KEY].Objects? {
          entries := entries[OBJECT_KEY := Objects(map[])];
        }
      } else {
        entries := entries[OBJECT_KEY := Objects(map[])];
      }
      m := entries[OBJECT_KEY].json;
    }

    method Serialize(json: Json) returns (newMap: map<Bytes, Bytes>)
      modifies this
      ensures newMap == Serialized(json, old(entries))
      ensures entries == old(entries)[OBJECT_KEY := Objects(JsonMap(old(entries)))]
    {
      ghost var was := entries;
      var newObjectMap := GetSessionJsonMap();
      newMap := map[];
      var todo := entries.Keys;
      ghost var done: set<Bytes> := {};
      while todo != {}
        invariant todo + done == was.Keys + {OBJECT_KEY}
        invariant entries == was[OBJECT_KEY := Objects(JsonMap(was))]
        invariant newMap == Walked(TextEntries(was), done)
        invariant newObjectMap == JsonMap(was) + Walked(Marshalled(json, was), done)
      {
        var key :| key in todo;
        TextStep(was, done, key);
        ObjectStep(json, was, done, key);
        todo, done := todo - {key}, done + {key};
        if !Reserved(key) {
          if entries[key].Text? {
            newMap := newMap[key := entries[key].text];
          } else {
            var data := json.marshal(entries[key]);
            if data.Some? {
              newObjectMap := newObjectMap[key := data.value];
            }
          }
        }
      }
      WalkedStep(TextEntries(was), done, OBJECT_KEY);
      WalkedStep(Marshalled(json, was), done, OBJECT_KEY);
      if newObjectMap != map[] {
        newMap := newMap[OBJECT_KEY := json.encode(newObjectMap)];
      }
    }

    method Load(json: Json, data: map<Bytes, Bytes>)
      modifies this
      ensures entries == Loaded(json, old(entries), data)
    {
      ghost var was := entries;
      var todo := data.Keys;
      ghost var done: set<Bytes> := {};
      while todo != {}
        invariant todo + done == data.Keys
        invariant entries == Loaded(json, was, Walked(data, done))
      {
        var key :| key in todo;
        LoadedStep(json, was, data, done, key);
        todo, done := todo - {key}, done + {key};
        if key == OBJECT_KEY {
          var target := json.decode(data[key]);
          if target.Some? {
            entries := entries[key := Objects(target.value)];
          }
        } else {
          entries := entries[key := Text(data[key])];
        }
      }
      WalkedStep(data, done, OBJECT_KEY);
    }

    /** The value of the cookie; None is the panic over a colon or a NUL byte. */
    method GetCookie(json: Json, sign: Bytes -> Bytes, now: int, expireAfter: int)
      returns (r: Option<Bytes>, ghost order: seq<Bytes>)
      modifies this
      ensures var m := Serialized(json, Stamped(old(entries), now, expireAfter));
        && entries == Stamped(old(entries), now, expireAfter)
        && Ascii("_TS") in entries && entries[Ascii("_TS")].Text?
        && Chars(entries[Ascii("_TS")].text)
             == (if Expires(old(entries), expireAfter) then FormatInt((now + expireAfter) / 1_000_000_000) else "session")
        && (r.Some? <==> Allowed(m))
        && (r.Some? ==> Enumerates(order, m.Keys)
                        && r.value == sign(QueryEscape(Framed(order, m))) + [HYPHEN] + QueryEscape(Framed(order, m)))
    {
      ghost var was := entries;
      TimestampText(was, now, expireAfter);
      assert Chars(Ascii("session")) == "session";
      entries := entries[TIMESTAMP_KEY := Text(Timestamp(entries, now, expireAfter))];
      SerializedStable(json, Stamped(was, now, expireAfter), entries);
      var stringMap := Serialize(json);
      var sessionValue;
      sessionValue, order := FrameAll(stringMap);
      if sessionValue.None? {
        return None, order;
      }
      var sessionData := QueryEscape(sessionValue.value);
      return Some(sign(sessionData) + [HYPHEN] + sessionData), order;
    }

    method FrameAll(stringMap: map<Bytes, Bytes>) returns (r: Option<Bytes>, ghost order: seq<Bytes>)
      ensures r.Some? <==> Allowed(stringMap)
      ensures r.Some? ==> Enumerates(order, stringMap.Keys) && r.value == Framed(order, stringMap)
    {
      order := [];
      var sessionValue: Bytes := [];
      var todo := stringMap.Keys;
      while todo != {}
        invariant todo <= stringMap.Keys
        invariant Enumerates(order, stringMap.Keys - todo)
        invariant sessionValue == Framed(order, stringMap)
        invariant forall k :: k in stringMap.Keys - todo ==> COLON !in k && NUL !in k && NUL !in stringMap[k]
      {
        var key :| key in todo;
        if COLON in key || NUL in key || NUL in stringMap[key] {
          return None, order;
        }
        FramedAppend(order, stringMap, key);
        sessionValue := sessionValue + Frame(key, stringMap[key]);
        EnumeratesOneMore(order, stringMap.Keys - todo, key);
        assert stringMap.Keys - (todo - {key}) == stringMap.Keys - todo + {key};
        order := order + [key];
        todo := todo - {key};
      }
      assert stringMap.Keys - todo == stringMap.Keys;
      return Some(sessionValue), order;
    }

    /**
     * A cookie that is not properly signed leaves the session alone; an expired one empties it. It panics over a
     * timestamp that is not a string, which only a session filled before can hold.
     */
    method DecodeCookie(json: Json, sign: Bytes -> Bytes, cookie: Bytes, now: int) returns (panics: bool)
      modifies this
      ensures panics == DecodePanics(json, sign, old(entries), cookie)
      ensures entries == Decoded(json, sign, old(entries), cookie, now)
    {
      var hyphen := Cut(cookie, HYPHEN);
      if hyphen.None? || hyphen.value.1 == [] {
        return false;
      }
      var (sig, data) := hyphen.value;
      if sig != sign(data) {
        return false;
      }
      var tempMap: map<Bytes, Bytes> := ParseKeyValueCookie(data);
      Load(json, tempMap);
      if TIMESTAMP_KEY in entries && !entries[TIMESTAMP_KEY].Text? {
        return true;
      }
      if ExpiredOrMissing(entries, now) {
        entries := map[];
      }
      return false;
    }
  }

  /** The data of a cookie that is properly signed. */
  function SignedData(sign: Bytes -> Bytes, cookie: Bytes): Option<Bytes> {
    var hyphen := Cut(cookie, HYPHEN);
    if hyphen.None? || hyphen.value.1 == [] || hyphen.value.0 != sign(hyphen.value.1) then None
    else Some(hyphen.value.1)
  }

  predicate DecodePanics(json: Json, sign: Bytes -> Bytes, e: Entries, cookie: Bytes) {
    var data := SignedData(sign, cookie);
    data.Some? &&
    var loaded := Loaded(json, e, ParseKeyValueCookie(data.value));
    TIMESTAMP_KEY in loaded && !loaded[TIMESTAMP_KEY].Text?
  }

  function Decoded(json: Json, sign: Bytes -> Bytes, e: Entries, cookie: Bytes, now: int): Entries {
    var data := SignedData(sign, cookie);
    if data.None? then e
    else
      var loaded := Loaded(json, e, ParseKeyValueCookie(data.value));
      if DecodePanics(json, sign, e, cookie) then loaded
      else if ExpiredOrMissing(loaded, now) then map[] else loaded
  }

  /** The panic, seen from before the call: the session holds such a timestamp and the cookie has none to replace it. */
  lemma DecodePanicsIff(json: Json, sign: Bytes -> Bytes, e: Entries, cookie: Bytes)
    ensures DecodePanics(json, sign, e, cookie) <==>
            && SignedData(sign, cookie).Some?
            && TIMESTAMP_KEY in e && !e[TIMESTAMP_KEY].Text?
            && TIMESTAMP_KEY !in ParseKeyValueCookie(SignedData(sign, cookie).value)
  {
    assert |TIMESTAMP_KEY| == 3 && |OBJECT_KEY| == 8;
  }

  lemma EnumeratesOneMore(order: seq<Bytes>, keys: set<Bytes>, key: Bytes)
    requires Enumerates(order, keys) && key !in keys
    ensures Enumerates(order + [key], keys + {key})
  {
    assert forall k :: k in order + [key] <==> k in order || k == key;
  }

  lemma SerializedStable(json: Json, e: Entries, was: Entries)
    requires e == was[OBJECT_KEY := Objects(JsonMap(was))]
    ensures Serialized(json, e) == Serialized(json, was)
  {
    assert TextEntries(e) == TextEntries(was);
    assert Marshalled(json, e) == Marshalled(json, was);
  }

  lemma {:induction false} FramedAppend(order: seq<Bytes>, m: map<Bytes, Bytes>, key: Bytes)
    requires key in m && forall k :: k in order ==> k in m
    ensures Framed(order + [key], m) == Framed(order, m) + Frame(key, m[key])
  {
    if order != [] {
      FramedAppend(order[1..], m, key);
      assert (order + [key])[1..] == order[1..] + [key];
    }
  }

  // ---------- the theorem ----------

  /** What a session comes back as: its strings, and its objects as JSON. */
  function Restored(json: Json, e: Entries): Entries {
    var strings: Entries := map k | k in TextEntries(e) :: Text(TextEntries(e)[k]);
    if ObjectMap(json, e) == map[] then strings else strings[OBJECT_KEY := Objects(ObjectMap(json, e))]
  }

  lemma LoadSerialized(json: Json, e: Entries)
    requires json.decode(json.encode(ObjectMap(json, e))) == Some(ObjectMap(json, e))
    ensures Loaded(json, map[], Serialized(json, e)) == Restored(json, e)
  {
  }

  lemma QueryEscapeNonEmpty(order: seq<Bytes>, m: map<Bytes, Bytes>)
    requires Enumerates(order, m.Keys) && m != map[]
    ensures QueryEscape(Framed(order, m)) != []
  {
    assert m.Keys != {};
    var k :| k in m.Keys;
    assert k in order;
  }

  lemma TimestampSerialized(json: Json, e: Entries, now: int, expireAfter: int)
    ensures var s := Stamped(e, now, expireAfter);
      TIMESTAMP_KEY in Serialized(json, s) && Serialized(json, s)[TIMESTAMP_KEY] == Timestamp(e, now, expireAfter)
  {
    assert |TIMESTAMP_KEY| == 3 && |OBJECT_KEY| == 8 && |MAP_KEY| == 5;
  }

  lemma UnixTextParses(seconds: int)
    requires -MAX_INT64 - 1 <= seconds <= MAX_INT64
    ensures ParseInt(Chars(UnixText(seconds))).value == seconds
  {
    FormatIsAscii(seconds);
    assert Chars(UnixText(seconds)) == FormatInt(seconds);
    ParseFormatted(seconds);
  }

  /** A digit or a sign never starts the word session. */
  lemma UnixTextIsNotSession(seconds: int)
    ensures UnixText(seconds) != SESSION_VALUE
  {
    FormatIsAscii(seconds);
    assert FormatInt(seconds)[0] in FormatInt(seconds);
    assert FormatInt(seconds)[0] == '-' || IsDigit(FormatInt(seconds)[0]);
    assert SESSION_VALUE[0] == 's' as int as byte;
    assert UnixText(seconds)[0] == FormatInt(seconds)[0] as int as byte;
  }

  lemma SignedDataReadBack(sign: Bytes -> Bytes, data: Bytes)
    requires HYPHEN !in sign(data) && data != []
    ensures SignedData(sign, sign(data) + [HYPHEN] + data) == Some(data)
  {
    CutAt(sign(data), HYPHEN, data);
  }

  /** The session has a lifetime: one is set, and the session has not been told to end with the browser. */
  predicate Expires(e: Entries, expireAfter: int) {
    expireAfter != 0 && !(Ascii("_TS") in e && e[Ascii("_TS")] == Text(Ascii("session")))
  }

  /** The text written for the timestamp: the word session, or the digits of the Unix time of the end. */
  lemma TimestampText(e: Entries, now: int, expireAfter: int)
    ensures var t := Stamped(e, now, expireAfter); var seconds := (now + expireAfter) / 1_000_000_000;
      && Ascii("_TS") in t && t[Ascii("_TS")].Text?
      && (!Expires(e, expireAfter) ==> t[Ascii("_TS")].text == Ascii("session"))
      && (Expires(e, expireAfter) ==> Chars(t[Ascii("_TS")].text) == FormatInt(seconds))
  {
    var seconds := (now + expireAfter) / 1_000_000_000;
    FormatIsAscii(seconds);
    assert |TIMESTAMP_KEY| == 3 && |OBJECT_KEY| == 8;
    assert Chars(UnixText(seconds)) == FormatInt(seconds);
  }

  /** Expiry of a session that has just been loaded. */
  lemma LoadedExpiry(json: Json, e: Entries, now: int, expireAfter: int, later: int)
    requires var s := Stamped(e, now, expireAfter);
      json.decode(json.encode(ObjectMap(json, s))) == Some(ObjectMap(json, s))
    requires -MAX_INT64 - 1 <= (now + expireAfter) / 1_000_000_000 <= MAX_INT64
    ensures var loaded := Loaded(json, map[], Serialized(json, Stamped(e, now, expireAfter)));
      && TIMESTAMP_KEY in loaded && loaded[TIMESTAMP_KEY].Text?
      && (ExpiredOrMissing(loaded, later) <==>
            Expires(e, expireAfter) && (now + expireAfter) / 1_000_000_000 < later)
  {
    var s := Stamped(e, now, expireAfter);
    var seconds := (now + expireAfter) / 1_000_000_000;
    TimestampSerialized(json, e, now, expireAfter);
    LoadSerialized(json, s);
    UnixTextParses(seconds);
    UnixTextIsNotSession(seconds);
    assert Loaded(json, map[], Serialized(json, s))[TIMESTAMP_KEY] == Text(Timestamp(e, now, expireAfter));
  }

  /** A cookie written by GetCookie and read back into an empty session, whatever the order of the walk. */
  lemma CookieRoundTrip(json: Json, sign: Bytes -> Bytes, e: Entries, now: int, expireAfter: int,
                        order: seq<Bytes>, cookie: Bytes, later: int)
    requires forall data :: HYPHEN !in sign(data)
    requires var s := Stamped(e, now, expireAfter); var m := Serialized(json, s);
      && json.decode(json.encode(ObjectMap(json, s))) == Some(ObjectMap(json, s))
      && Allowed(m) && Enumerates(order, m.Keys)
      && cookie == sign(QueryEscape(Framed(order, m))) + [HYPHEN] + QueryEscape(Framed(order, m))
    requires -MAX_INT64 - 1 <= (now + expireAfter) / 1_000_000_000 <= MAX_INT64
    ensures !DecodePanics(json, sign, map[], cookie)
    ensures var s := Stamped(e, now, expireAfter);
      Decoded(json, sign, map[], cookie, later)
        == if Expires(e, expireAfter) && (now + expireAfter) / 1_000_000_000 < later then map[] else Restored(json, s)
  {
    var s := Stamped(e, now, expireAfter);
    var m := Serialized(json, s);
    TimestampSerialized(json, e, now, expireAfter);
    QueryEscapeNonEmpty(order, m);
    SignedDataReadBack(sign, QueryEscape(Framed(order, m)));
    FramedRoundTrip(order, m);
    LoadedExpiry(json, e, now, expireAfter, later);
    LoadSerialized(json, s);
  }
}
