/** `process_trigger.go`: a Trigger step builds an HTTP request from its payload
    (method, URL, body and `key:value` header entries) and sends it. Whether the
    standard library accepts the method and URL is a parameter of the model. */
module ProcessTrigger {
  import Strings
  import opened Trace
  import Data

  /** `http.MethodPost`. */
  const MethodPost: string := "POST"

  /** A request always gets a method: an empty verb defaults to POST and any
      other verb is kept. */
  function DefaultVerb(verb: string): (r: string)
    ensures r != ""
    ensures verb != "" ==> r == verb
    ensures verb == "" ==> r == MethodPost
  {
    if verb == "" then MethodPost else verb
  }

  /** One header entry as the code reads it: split on every colon, the key is
      the first piece and the value the second; an entry without a colon has no
      second piece, and indexing it panics (`None`). */
  function HeaderPair(h: string): Option<(string, string)> {
    var splits := Strings.Split(h, ':');
    if |splits| < 2 then None else Some((splits[0], splits[1]))
  }

  /** The entry is readable exactly when it contains a colon; the key is then the
      text before the first colon and the value the text between the first and
      the second, so anything after a second colon is dropped. */
  lemma HeaderPairPieces(h: string)
    ensures HeaderPair(h).None? <==> ':' !in h
    ensures ':' in h ==> HeaderPair(h) == Some((Strings.Before(h, ':'), Strings.Before(Strings.After(h, ':'), ':')))
  {
    Strings.SplitFirstPieces(h, ':');
    if ':' !in h {
      Strings.SplitCount(h, ':');
      NoColonCount(h);
    }
  }

  /** An entry without a colon counts none and splits into the single piece
      that is the whole entry, so `splits[1]` is out of range. */
  lemma {:induction false} NoColonCount(h: string)
    requires ':' !in h
    ensures Strings.Count(h, ':') == 0
    ensures Strings.Split(h, ':') == [h]
  {
    if h != [] {
      assert h[0] != ':';
      assert ':' !in h[1..];
      NoColonCount(h[1..]);
      assert [h[0]] + h[1..] == h;
    }
  }

  /** An entry `key:value:more` sets `key` to `value`; `more` is dropped. */
  lemma HeaderPairDropsRest(key: string, value: string, more: string)
    requires ':' !in key && ':' !in value
    ensures HeaderPair(key + ":" + value + ":" + more) == Some((key, value))
  {
    var h := key + ":" + value + ":" + more;
    HeaderPairPieces(h);
    assert h[..|key|] == key;
    Strings.BeforeAfterAt(h, ':', |key|);
    var rest := h[|key| + 1..];
    assert rest == value + ":" + more;
    assert rest[..|value|] == value;
    Strings.BeforeAfterAt(rest, ':', |value|);
  }

  /** "X-Foo:bar:baz" sets X-Foo to "bar". */
  lemma HeaderPairExample()
    ensures HeaderPair("X-Foo:bar:baz") == Some(("X-Foo", "bar"))
  {
    assert "X-Foo:bar:baz" == "X-Foo" + ":" + "bar" + ":" + "baz";
    HeaderPairDropsRest("X-Foo", "bar", "baz");
  }

  /** The header map after `Header.Set` of every entry in list order, or `None`
      when some entry panics. */
  function SetHeaders(header: map<string, string>, entries: seq<string>): Option<map<string, string>>
    decreases |entries|
  {
    if entries == [] then Some(header)
    else
      var before := SetHeaders(header, entries[..|entries| - 1]);
      var pair := HeaderPair(entries[|entries| - 1]);
      if before.None? || pair.None? then None
      else Some(before.value[pair.value.0 := pair.value.1])
  }

  /** The value the last entry for `key` gives it, if any entry does. */
  function LastValue(entries: seq<string>, key: string): Option<string>
    decreases |entries|
  {
    if entries == [] then None
    else
      var pair := HeaderPair(entries[|entries| - 1]);
      if pair.Some? && pair.value.0 == key then Some(pair.value.1)
      else LastValue(entries[..|entries| - 1], key)
  }

  /** Setting headers fails exactly when some entry has no colon. */
  lemma {:induction false} SetHeadersFails(header: map<string, string>, entries: seq<string>)
    ensures SetHeaders(header, entries).None? <==> exists k :: 0 <= k < |entries| && ':' !in entries[k]
    decreases |entries|
  {
    if entries != [] {
      var init := entries[..|entries| - 1];
      SetHeadersFails(header, init);
      HeaderPairPieces(entries[|entries| - 1]);
      if exists k :: 0 <= k < |entries| && ':' !in entries[k] {
        var k :| 0 <= k < |entries| && ':' !in entries[k];
        if k < |init| {
          assert init[k] == entries[k];
        }
      }
      if exists k :: 0 <= k < |init| && ':' !in init[k] {
        var k :| 0 <= k < |init| && ':' !in init[k];
        assert entries[k] == init[k];
      }
    }
  }

  /** Entries apply in list order, so the last entry for a key decides its value;
      a key no entry names keeps its initial value, or stays absent. */
  lemma {:induction false} LastEntryWins(header: map<string, string>, entries: seq<string>, key: string)
    requires SetHeaders(header, entries).Some?
    ensures var m := SetHeaders(header, entries).value;
      (LastValue(entries, key).Some? ==> key in m && m[key] == LastValue(entries, key).value) &&
      (LastValue(entries, key).None? ==> (key in m <==> key in header) && (key in header ==> m[key] == header[key]))
    decreases |entries|
  {
    if entries != [] {
      LastEntryWins(header, entries[..|entries| - 1], key);
    }
  }

  /** The header map the request starts with. */
  const InitialHeader: map<string, string> := map["Content-Type" := "application/json"]

  /** How a Trigger step ends. */
  function TriggerSpec(step: Data.TimelineStep, validRequest: (string, string) -> bool): (r: (Status, seq<Event>))
  {
    if !step.MetaInfo.TriggerMeta? then (Panicked(TypeAssertion), [])
    else
      var meta := step.MetaInfo;
      var verb := DefaultVerb(meta.Verb);
      if !validRequest(verb, meta.URL) then (Ok, [])
      else
        var header := SetHeaders(InitialHeader, meta.Headers);
        if header.None? then (Panicked(IndexOutOfRange), [])
        else (Ok, [Send(Request(verb, meta.URL, header.value, meta.Body))])
  }

  /** A payload of another type panics at the type assertion. A request that
      cannot be built is abandoned before any header entry is read,
      so even entries without a colon cannot panic then; a built request is sent
      with the defaulted verb, a JSON content type unless an entry replaces it,
      and every other header as its last entry sets it. */
  lemma TriggerOutcomes(step: Data.TimelineStep, validRequest: (string, string) -> bool, key: string)
    ensures !step.MetaInfo.TriggerMeta? ==> TriggerSpec(step, validRequest) == (Panicked(TypeAssertion), [])
    ensures step.MetaInfo.TriggerMeta? ==>
      var meta := step.MetaInfo;
      var verb := DefaultVerb(meta.Verb);
      var r := TriggerSpec(step, validRequest);
      (!validRequest(verb, meta.URL) ==> r == (Ok, [])) &&
      (validRequest(verb, meta.URL) && (exists k :: 0 <= k < |meta.Headers| && ':' !in meta.Headers[k]) ==>
        r == (Panicked(IndexOutOfRange), [])) &&
      (validRequest(verb, meta.URL) && (forall k :: 0 <= k < |meta.Headers| ==> ':' in meta.Headers[k]) ==>
        r.0 == Ok && |r.1| == 1 && r.1[0].Send? &&
        var req := r.1[0].request;
        req.Method == verb && req.URL == meta.URL && req.Body == meta.Body &&
        (LastValue(meta.Headers, key).Some? ==> key in req.Header && req.Header[key] == LastValue(meta.Headers, key).value) &&
        (LastValue(meta.Headers, key).None? && key == "Content-Type" ==>
          key in req.Header && req.Header[key] == "application/json") &&
        (LastValue(meta.Headers, key).None? && key != "Content-Type" ==> key !in req.Header))
  {
    if step.MetaInfo.TriggerMeta? {
      var meta := step.MetaInfo;
      SetHeadersFails(InitialHeader, meta.Headers);
      if SetHeaders(InitialHeader, meta.Headers).Some? {
        LastEntryWins(InitialHeader, meta.Headers, key);
      }
    }
  }

  /** `ProcessTrigger`: default the verb, build the request, set the content type,
      then each header entry in turn, and send. */
  method ProcessTrigger(step: Data.TimelineStep, validRequest: (string, string) -> bool)
    returns (status: Status, events: seq<Event>)
    ensures (status, events) == TriggerSpec(step, validRequest)
  {
    if !step.MetaInfo.TriggerMeta? {
      return Panicked(TypeAssertion), [];
    }
    var meta := step.MetaInfo;
    var verb := DefaultVerb(meta.Verb);
    if !validRequest(verb, meta.URL) {
      return Ok, [];
    }
    var header := InitialHeader;
    var i := 0;
    while i < |meta.Headers|
      invariant 0 <= i <= |meta.Headers|
      invariant SetHeaders(InitialHeader, meta.Headers[..i]) == Some(header)
    {
      var pair := HeaderPair(meta.Headers[i]);
      assert meta.Headers[..i + 1][..i] == meta.Headers[..i];
      if pair.None? {
        SetHeadersPrefixFails(InitialHeader, meta.Headers, i + 1);
        return Panicked(IndexOutOfRange), [];
      }
      header := header[pair.value.0 := pair.value.1];
      i := i + 1;
    }
    assert meta.Headers[..i] == meta.Headers;
    status, events := Ok, [Send(Request(verb, meta.URL, header, meta.Body))];
  }

  /** Once a prefix of the entries panics, the whole list does. */
  lemma {:induction false} SetHeadersPrefixFails(header: map<string, string>, entries: seq<string>, i: nat)
    requires i <= |entries| && SetHeaders(header, entries[..i]).None?
    ensures SetHeaders(header, entries).None?
    decreases |entries| - i
  {
    if i < |entries| {
      assert entries[..i + 1][..i] == entries[..i];
      SetHeadersPrefixFails(header, entries, i + 1);
    } else {
      assert entries[..i] == entries;
    }
  }
}
