/**
 * `extract_m3u8s_from_netlog` (scrape.py): reads the browser's network log,
 * repairing a log whose closing tokens were never written, and collects, in
 * order, the URL of every event coming from one of the two video hosts whose
 * URL names an HLS playlist (contains `.m3u8`).
 *
 * JSON decoding itself is a parameter, `decode`, that yields the decoded
 * document or None for a JSONDecodeError; reading the log file is left to the
 * caller, which passes its text.
 */
module NetLog {
  import opened Results
  import opened Strings

  const MatterhornOrigin := "https://matterhorn.dce.harvard.edu"
  const PanoptoOrigin := "https://harvard.hosted.panopto.com"

  /**
   * An event's `params` object: `network_isolation_key` (None when absent
   * or not a string, as `params.get(..., None)` then matches no origin) and
   * `url` (None when absent, which makes `params['url']` raise KeyError).
   */
  datatype Params = Params(isolationKey: Option<string>, url: Option<string>)

  datatype Event = Event(params: Option<Params>)

  /** The decoded log; `events` is None when the top-level object has no `events` key. */
  datatype NetLogDoc = NetLogDoc(events: Option<seq<Event>>)

  /** `json_str[:-2] + ']}'`: drop two characters (Python's slice of a shorter string is empty), close the event list and the object. */
  function RepairedText(text: string): string {
    (if |text| >= 2 then text[..|text| - 2] else "") + "]}"
  }

  /** A log cut off after an event's `,\n` is repaired into the events so far, closed. */
  lemma RepairDropsTrailingComma(prefix: string)
    ensures RepairedText(prefix + ",\n") == prefix + "]}"
  {
    assert (prefix + ",\n")[..|prefix|] == prefix;
  }

  /** Strict decoding first; on failure exactly one retry on the repaired text; a second failure is re-raised. */
  function LoadNetLog(text: string, decode: string -> Option<NetLogDoc>): Result<NetLogDoc> {
    var strict := decode(text);
    if strict.Some? then Ok(strict.value)
    else
      var repaired := decode(RepairedText(text));
      if repaired.Some? then Ok(repaired.value) else Err(JsonDecodeError)
  }

  /**
   * The loading code as written: a successful strict parse binds `json_obj`,
   * but the loop reads `json_data`, which only the repair path binds, so the
   * strict path ends in UnboundLocalError (a NameError).
   */
  function LoadNetLogAsWritten(text: string, decode: string -> Option<NetLogDoc>): Result<NetLogDoc> {
    var strict := decode(text);
    if strict.Some? then Err(NameError)
    else
      var repaired := decode(RepairedText(text));
      if repaired.Some? then Ok(repaired.value) else Err(JsonDecodeError)
  }

  /** The three outcomes of loading: a well-formed log is used as it is (the repair is never tried), else the repaired log, else the decoding error. */
  lemma LoadNetLogAttempts(text: string, decode: string -> Option<NetLogDoc>)
    ensures decode(text).Some? ==> LoadNetLog(text, decode) == Ok(decode(text).value)
    ensures decode(text).None? && decode(RepairedText(text)).Some? ==>
              LoadNetLog(text, decode) == Ok(decode(RepairedText(text)).value)
    ensures decode(text).None? && decode(RepairedText(text)).None? ==>
              LoadNetLog(text, decode) == Err(JsonDecodeError)
  {
  }

  /** There is no third attempt: the outcome depends only on decoding the text and its one repair. */
  lemma LoadNetLogTriesTwoTexts(text: string, d1: string -> Option<NetLogDoc>, d2: string -> Option<NetLogDoc>)
    requires d1(text) == d2(text) && d1(RepairedText(text)) == d2(RepairedText(text))
    ensures LoadNetLog(text, d1) == LoadNetLog(text, d2)
  {
  }

  /** As written, every log that parses strictly is lost, while the intended code reads its events. */
  lemma StrictPathRaisesAsWritten(text: string, decode: string -> Option<NetLogDoc>)
    requires decode(text).Some?
    ensures LoadNetLogAsWritten(text, decode) == Err(NameError)
    ensures LoadNetLog(text, decode) == Ok(decode(text).value)
  {
  }

  /** Concretely: a complete, empty log `{"events": []}`. */
  lemma StrictPathCounterexample()
    ensures var decode := (s: string) => Some(NetLogDoc(Some([])));
            LoadNetLogAsWritten("{\"events\": []}", decode) == Err(NameError) &&
            LoadNetLog("{\"events\": []}", decode) == Ok(NetLogDoc(Some([])))
  {
  }

  // ---------------------------------------------------------------------------
  // the event filter
  // ---------------------------------------------------------------------------

  predicate FromVideoHost(p: Params) {
    p.isolationKey == Some(MatterhornOrigin) || p.isolationKey == Some(PanoptoOrigin)
  }

  /** What one event adds to the list: nothing, its URL, or the KeyError of a host event without `url`. */
  function EventStep(e: Event): Result<Option<string>> {
    if e.params.None? || !FromVideoHost(e.params.value) then Ok(None)
    else if e.params.value.url.None? then Err(KeyError)
    else if Contains(e.params.value.url.value, ".m3u8") then Ok(Some(e.params.value.url.value))
    else Ok(None)
  }

  /** An event whose URL the filter keeps. */
  predicate Selected(e: Event) {
    e.params.Some? && FromVideoHost(e.params.value) && e.params.value.url.Some? &&
    Contains(e.params.value.url.value, ".m3u8")
  }

  /** The filter over the events, one event at a time in log order. */
  function FilterSpec(events: seq<Event>): Result<seq<string>>
    decreases |events|
  {
    if |events| == 0 then Ok([])
    else
      var prev := FilterSpec(events[..|events| - 1]);
      var step := EventStep(events[|events| - 1]);
      if prev.Err? then prev
      else if step.Err? then Err(step.error)
      else if step.value.Some? then Ok(prev.value + [step.value.value])
      else prev
  }

  /** The positions of the selected events, in order. */
  function SelectedIndices(events: seq<Event>): seq<nat>
    decreases |events|
  {
    if |events| == 0 then []
    else SelectedIndices(events[..|events| - 1]) + (if Selected(events[|events| - 1]) then [|events| - 1] else [])
  }

  lemma {:induction false} FilterErrorSticks(events: seq<Event>, i: nat)
    requires i <= |events| && FilterSpec(events[..i]).Err?
    ensures FilterSpec(events) == Err(KeyError)
    decreases |events| - i
  {
    if i == |events| {
      assert events[..i] == events;
      FilterOnlyKeyError(events);
    } else {
      assert events[..i + 1][..i] == events[..i];
      FilterErrorSticks(events, i + 1);
    }
  }

  lemma {:induction false} FilterOnlyKeyError(events: seq<Event>)
    ensures FilterSpec(events).Err? ==> FilterSpec(events) == Err(KeyError)
    decreases |events|
  {
    if |events| > 0 {
      FilterOnlyKeyError(events[..|events| - 1]);
    }
  }

  /** The filter fails exactly when some event from a video host has no `url`. */
  lemma {:induction false} FilterFailsIffUrlMissing(events: seq<Event>)
    ensures FilterSpec(events).Err? <==> exists i :: 0 <= i < |events| && EventStep(events[i]).Err?
    decreases |events|
  {
    if |events| > 0 {
      var init := events[..|events| - 1];
      FilterFailsIffUrlMissing(init);
      if exists i :: 0 <= i < |init| && EventStep(init[i]).Err? {
        var i :| 0 <= i < |init| && EventStep(init[i]).Err?;
        assert events[i] == init[i];
      }
      if exists i :: 0 <= i < |events| && EventStep(events[i]).Err? {
        var i :| 0 <= i < |events| && EventStep(events[i]).Err?;
        if i < |init| { assert init[i] == events[i]; }
      }
    }
  }

  /** The selected positions are in range, name selected events and increase. */
  lemma {:induction false} SelectedIndicesSound(events: seq<Event>)
    ensures forall k :: 0 <= k < |SelectedIndices(events)| ==>
              SelectedIndices(events)[k] < |events| && Selected(events[SelectedIndices(events)[k]])
    ensures forall k, l :: 0 <= k < l < |SelectedIndices(events)| ==> SelectedIndices(events)[k] < SelectedIndices(events)[l]
    decreases |events|
  {
    if |events| > 0 {
      var init := events[..|events| - 1];
      SelectedIndicesSound(init);
      var idx0 := SelectedIndices(init);
      forall k | 0 <= k < |idx0|
        ensures events[idx0[k]] == init[idx0[k]]
      {
      }
    }
  }

  /** Every selected event's position is among the selected positions. */
  lemma {:induction false} SelectedIndicesComplete(events: seq<Event>)
    ensures forall i :: 0 <= i < |events| && Selected(events[i]) ==> i in SelectedIndices(events)
    decreases |events|
  {
    if |events| > 0 {
      var init := events[..|events| - 1];
      SelectedIndicesComplete(init);
      forall i | 0 <= i < |init| && Selected(events[i])
        ensures i in SelectedIndices(init)
      {
        assert init[i] == events[i];
      }
    }
  }

  /** A successful filter has one URL per selected position: the URL of the event there. */
  lemma {:induction false} FilterUrlsAtSelected(events: seq<Event>)
    requires FilterSpec(events).Ok?
    ensures var urls, idx := FilterSpec(events).value, SelectedIndices(events);
            && |urls| == |idx|
            && (forall k :: 0 <= k < |idx| ==>
                  idx[k] < |events| && Selected(events[idx[k]]) && urls[k] == events[idx[k]].params.value.url.value)
    decreases |events|
  {
    SelectedIndicesSound(events);
    if |events| > 0 {
      var init := events[..|events| - 1];
      assert FilterSpec(init).Ok?;
      FilterUrlsAtSelected(init);
      var idx0 := SelectedIndices(init);
      forall k | 0 <= k < |idx0|
        ensures events[idx0[k]] == init[idx0[k]]
      {
      }
    }
  }

  /**
   * A successful filter gives exactly the URLs of the selected events, in log
   * order: the k-th URL is that of the k-th selected event, the positions
   * increase, and every selected event is among them.
   */
  lemma FilterIsSelectedSubsequence(events: seq<Event>)
    requires FilterSpec(events).Ok?
    ensures var urls, idx := FilterSpec(events).value, SelectedIndices(events);
            && |urls| == |idx|
            && (forall k :: 0 <= k < |idx| ==>
                  idx[k] < |events| && Selected(events[idx[k]]) && urls[k] == events[idx[k]].params.value.url.value)
            && (forall k, l :: 0 <= k < l < |idx| ==> idx[k] < idx[l])
            && (forall i :: 0 <= i < |events| && Selected(events[i]) ==> i in idx)
  {
    FilterUrlsAtSelected(events);
    SelectedIndicesSound(events);
    SelectedIndicesComplete(events);
  }

  /** `for event in json_data['events']`: the loop of appends. */
  method FilterM3u8s(events: seq<Event>) returns (r: Result<seq<string>>)
    ensures r == FilterSpec(events)
  {
    var found: seq<string> := [];
    var i := 0;
    while i < |events|
      invariant 0 <= i <= |events|
      invariant FilterSpec(events[..i]) == Ok(found)
    {
      var e := events[i];
      assert events[..i + 1][..i] == events[..i];
      if e.params.Some? {
        var params := e.params.value;
        if params.isolationKey == Some(MatterhornOrigin) || params.isolationKey == Some(PanoptoOrigin) {
          if params.url.None? {
            FilterErrorSticks(events, i + 1);
            return Err(KeyError);
          }
          if Contains(params.url.value, ".m3u8") {
            found := found + [params.url.value];
          }
        }
      }
      i := i + 1;
    }
    assert events[..i] == events;
    return Ok(found);
  }

  /** The whole reader: load (with its one repair), look up `events`, filter. */
  method ExtractM3u8sFromNetLog(text: string, decode: string -> Option<NetLogDoc>) returns (r: Result<seq<string>>)
    ensures LoadNetLog(text, decode).Err? ==> r == Err(LoadNetLog(text, decode).error)
    ensures LoadNetLog(text, decode).Ok? && LoadNetLog(text, decode).value.events.None? ==> r == Err(KeyError)
    ensures LoadNetLog(text, decode).Ok? && LoadNetLog(text, decode).value.events.Some? ==>
              r == FilterSpec(LoadNetLog(text, decode).value.events.value)
  {
    var doc := decode(text);
    if doc.None? {
      doc := decode(RepairedText(text));
      if doc.None? {
        return Err(JsonDecodeError);
      }
    }
    if doc.value.events.None? {
      return Err(KeyError);
    }
    r := FilterM3u8s(doc.value.events.value);
  }
}
