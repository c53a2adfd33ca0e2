/** What becomes of each entry of a session on its way through a cookie, and what a foreign or damaged cookie does. */
module SessionOutcome {
  import opened Text
  import opened NumberText
  import opened SessionCookie

  // ---------- entry by entry ----------

  /** The entry is an object that goes into the cookie as JSON. */
  predicate Carried(json: Json, e: Entries, key: Bytes) {
    key in e && !e[key].Text? && json.marshal(e[key]).Some? && key != Ascii("_object_") && key != Ascii("_map_")
  }

  /** The objects restored with a session: those it holds, and those it got with the last cookie and did not replace. */
  ghost predicate ObjectsRestored(json: Json, e: Entries, objects: map<Bytes, Bytes>) {
    var kept := if Ascii("_object_") in e && e[Ascii("_object_")].Objects? then e[Ascii("_object_")].json else map[];
    forall key :: if Carried(json, e, key) then key in objects && json.marshal(e[key]) == Some(objects[key])
                  else if key in kept then key in objects && objects[key] == kept[key]
                  else key !in objects
  }

  /** Strings come back under their keys, objects as JSON under one key, and nothing else but the timestamp. */
  ghost predicate SessionRestored(json: Json, e: Entries, r: Entries) {
    && (forall key :: key != Ascii("_TS") && key != Ascii("_object_") ==>
          if key in e && e[key].Text? && key != Ascii("_map_") then key in r && r[key] == e[key] else key !in r)
    && Ascii("_TS") in r && r[Ascii("_TS")].Text?
    && (Ascii("_object_") in r ==>
          r[Ascii("_object_")].Objects? && r[Ascii("_object_")].json != map[]
          && ObjectsRestored(json, e - {Ascii("_TS")}, r[Ascii("_object_")].json))
    && (Ascii("_object_") !in r ==> ObjectsRestored(json, e - {Ascii("_TS")}, map[]))
  }

  lemma KeysDiffer()
    ensures TIMESTAMP_KEY == Ascii("_TS") && OBJECT_KEY == Ascii("_object_") && MAP_KEY == Ascii("_map_")
    ensures |TIMESTAMP_KEY| == 3 && |OBJECT_KEY| == 8 && |MAP_KEY| == 5
  {
  }

  lemma ObjectsOfStamped(json: Json, e: Entries, now: int, expireAfter: int)
    ensures ObjectsRestored(json, e - {Ascii("_TS")}, ObjectMap(json, Stamped(e, now, expireAfter)))
  {
    KeysDiffer();
    var s, was := Stamped(e, now, expireAfter), e - {Ascii("_TS")};
    forall key ensures Carried(json, was, key) <==> key in Marshalled(json, s) {
      assert key != TIMESTAMP_KEY && key != OBJECT_KEY ==> (key in was <==> key in s);
    }
  }

  /** What CookieRoundTrip restores. */
  lemma RestoredSession(json: Json, e: Entries, now: int, expireAfter: int)
    ensures SessionRestored(json, e, Restored(json, Stamped(e, now, expireAfter)))
  {
    KeysDiffer();
    ObjectsOfStamped(json, e, now, expireAfter);
    var s := Stamped(e, now, expireAfter);
    forall key | key != TIMESTAMP_KEY && key != OBJECT_KEY
      ensures key in TextEntries(s) <==> key in e && e[key].Text? && key != MAP_KEY
    {
    }
  }

  /**
   * The way through a cookie and back into an empty session, in terms of the session before: it is lost if it had a
   * lifetime and that is over, and otherwise restored entry by entry.
   */
  lemma SessionSurvivesUnlessExpired(json: Json, sign: Bytes -> Bytes, e: Entries, now: int, expireAfter: int,
                                     order: seq<Bytes>, cookie: Bytes, later: int)
    requires forall data :: HYPHEN !in sign(data)
    requires var s := Stamped(e, now, expireAfter); var m := Serialized(json, s);
      && json.decode(json.encode(ObjectMap(json, s))) == Some(ObjectMap(json, s))
      && Allowed(m) && Enumerates(order, m.Keys)
      && cookie == sign(QueryEscape(Framed(order, m))) + [HYPHEN] + QueryEscape(Framed(order, m))
    requires -MAX_INT64 - 1 <= (now + expireAfter) / 1_000_000_000 <= MAX_INT64
    ensures var r := Decoded(json, sign, map[], cookie, later);
      && (r == map[] <==> Expires(e, expireAfter) && (now + expireAfter) / 1_000_000_000 < later)
      && (r != map[] ==> SessionRestored(json, e, r))
  {
    CookieRoundTrip(json, sign, e, now, expireAfter, order, cookie, later);
    RestoredSession(json, e, now, expireAfter);
  }

  // ---------- loading ----------

  /** Load sets what the cookie holds and leaves the rest; an object text that cannot be decoded is passed over. */
  lemma LoadedEntries(json: Json, e: Entries, data: map<Bytes, Bytes>, key: Bytes)
    ensures var r := Loaded(json, e, data);
      if key in data && key != Ascii("_object_") then key in r && r[key] == Text(data[key])
      else if key in data && json.decode(data[key]).Some? then
        key in r && r[key] == Objects(json.decode(data[key]).value)
      else if key in e then key in r && r[key] == e[key]
      else key !in r
  {
    KeysDiffer();
  }

  /** Of several matches of one key the last one counts. */
  lemma {:induction false} LastMatchCounts(matches: seq<(Bytes, Bytes)>, i: nat)
    requires i < |matches| && forall j :: i < j < |matches| ==> matches[j].0 != matches[i].0
    ensures matches[i].0 in Collected(matches) && Collected(matches)[matches[i].0] == matches[i].1
    decreases |matches|
  {
    if i < |matches| - 1 {
      assert matches[..|matches| - 1][i] == matches[i];
      LastMatchCounts(matches[..|matches| - 1], i);
    }
  }

  lemma {:induction false} OnlyMatchesCount(matches: seq<(Bytes, Bytes)>, key: Bytes)
    requires forall i :: 0 <= i < |matches| ==> matches[i].0 != key
    ensures key !in Collected(matches)
    decreases |matches|
  {
    if matches != [] {
      OnlyMatchesCount(matches[..|matches| - 1], key);
    }
  }

  // ---------- foreign cookies ----------

  /** Without a signature, or with another one than that of its data, a cookie leaves the session as it is. */
  lemma ForgedCookieIgnored(json: Json, sign: Bytes -> Bytes, e: Entries, sig: Bytes, data: Bytes, now: int)
    requires HYPHEN !in sig && (sig != sign(data) || data == [])
    ensures Decoded(json, sign, e, sig + [HYPHEN] + data, now) == e && Decoded(json, sign, e, sig, now) == e
    ensures !DecodePanics(json, sign, e, sig + [HYPHEN] + data) && !DecodePanics(json, sign, e, sig)
  {
    CutAt(sig, HYPHEN, data);
    CutFinds(sig, HYPHEN);
  }

  lemma CutFinds(s: Bytes, b: byte)
    ensures Cut(s, b).Some? ==> b in s
  {
    if Cut(s, b).Some? {
      assert s[|Cut(s, b).value.0|] == b;
    }
  }

  /** What the text of a timestamp says at a given time. */
  ghost predicate SaysExpiry(text: string, now: int, expired: bool) {
    var n := NumberIn(text, true);
    && (text == "session" ==> !expired)
    && (n.Some? && -MAX_INT64 - 1 <= n.value <= MAX_INT64 ==> expired == (n.value < now))
    && (text != "session" && (text == "" || !(IsDigit(text[0]) || text[0] in "+-")) ==> expired == (0 < now))
  }

  lemma TextExpiry(e: Entries, now: int)
    requires Ascii("_TS") in e && e[Ascii("_TS")].Text?
    ensures TIMESTAMP_KEY in e && e[TIMESTAMP_KEY].Text?
    ensures SaysExpiry(Chars(e[Ascii("_TS")].text), now, ExpiredOrMissing(e, now))
  {
    KeysDiffer();
    var text := e[Ascii("_TS")].text;
    IntReadsNumber(Chars(text));
    IsSession(text);
  }

  lemma IsSession(text: Bytes)
    ensures text == SESSION_VALUE <==> Chars(text) == "session"
  {
    if Chars(text) == "session" {
      forall i | 0 <= i < |text| ensures text[i] == Ascii("session")[i] {
        assert text[i] as int as char == Chars(text)[i];
      }
      assert |text| == |Chars(text)|;
    }
    assert Chars(Ascii("session")) == "session";
  }

  /**
   * A signed cookie read into an empty session: it is dropped without a timestamp, kept for good with the word
   * session, and otherwise kept until the time written in it is over. What starts like no number counts as time 0.
   */
  lemma SignedCookieExpiry(json: Json, sign: Bytes -> Bytes, sig: Bytes, data: Bytes, now: int)
    requires HYPHEN !in sig && sig == sign(data) && data != []
    ensures var m := ParseKeyValueCookie(data); var r := Decoded(json, sign, map[], sig + [HYPHEN] + data, now);
      if Ascii("_TS") !in m then r == map[]
      else exists expired :: SaysExpiry(Chars(m[Ascii("_TS")]), now, expired)
                             && r == if expired then map[] else Loaded(json, map[], m)
  {
    KeysDiffer();
    CutAt(sig, HYPHEN, data);
    var m := ParseKeyValueCookie(data);
    var loaded := Loaded(json, map[], m);
    LoadedEntries(json, map[], m, Ascii("_TS"));
    if Ascii("_TS") in m {
      TextExpiry(loaded, now);
    }
  }

  // ---------- what is safe in a cookie ----------

  /** Escaped data is letters, digits, hyphen, underscore, dot, tilde, percent and plus. */
  lemma {:induction false} EscapedIsSafe(s: Bytes, i: nat)
    requires i < |QueryEscape(s)|
    ensures var c := QueryEscape(s)[i] as int as char;
      'a' <= c <= 'z' || 'A' <= c <= 'Z' || '0' <= c <= '9' || c in "-_.~%+"
  {
    var first := EscapeByte(s[0]);
    if i >= |first| {
      EscapedIsSafe(s[1..], i - |first|);
    } else {
      assert QueryEscape(s)[i] == first[i];
    }
  }

  /** The bytes on the wire: NUL, key, colon, value, NUL, and spaces, line ends and the like escaped. */
  lemma WireFormat(key: Bytes, value: Bytes)
    ensures Frame(key, value) == [0x00] + key + [0x3A] + value + [0x00]
    ensures [HYPHEN] == Ascii("-")
    ensures EscapeByte(0x00) == Ascii("%00") && EscapeByte(0x3A) == Ascii("%3A") && EscapeByte(0x20) == Ascii("+")
    ensures forall c: byte :: c as int as char in "-_.~" || 'a' <= c as int as char <= 'z' ==> EscapeByte(c) == [c]
  {
  }
}
