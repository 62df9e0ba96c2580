/**
 * `get_title_to_m3u8s` (scrape.py): joins the lecture list scraped from the
 * course page (title -> lecture page URL) to the playlist URLs observed in the
 * network log.
 *
 * A playlist URL carries the base id `id1` as its `/`-separated segment 4
 * and, for panopto, a session id `id2` as the first 36 characters of
 * segment 5.  A lecture URL carries its lecture id between its first and second `id=`.  Matterhorn
 * lecture ids are base ids; panopto lecture ids are session ids that a
 * table (last write wins) maps to base ids.
 */
module Correlate {
  import opened Results
  import opened Strings
  import opened Dicts

  datatype Player = Matterhorn | Panopto

  /** `m3u8.split('/')[4]`; None for the IndexError. */
  function Id1(url: string): Option<string> {
    var parts := Split(url, "/");
    if |parts| > 4 then Some(parts[4]) else None
  }

  /** `m3u8.split('/')[5][:36]`; None for the IndexError. */
  function Id2(url: string): Option<string> {
    var parts := Split(url, "/");
    if |parts| > 5 then Some(if |parts[5]| <= 36 then parts[5] else parts[5][..36]) else None
  }

  /** `url.split('id=')[1]`; None for the IndexError. */
  function LectureId(url: string): Option<string> {
    var parts := Split(url, "id=");
    if |parts| > 1 then Some(parts[1]) else None
  }

  // ---------------------------------------------------------------------------
  // title -> lecture id  (a dict comprehension)
  // ---------------------------------------------------------------------------

  function TitleToLectureId(lectureToUrl: Dict<string>): (r: Result<Dict<string>>)
    ensures r.Ok? ==> Keys(r.value) == Keys(lectureToUrl) &&
                      forall i :: 0 <= i < |lectureToUrl| ==> LectureId(lectureToUrl[i].1) == Some(r.value[i].1)
    ensures r.Err? <==> exists i :: 0 <= i < |lectureToUrl| && LectureId(lectureToUrl[i].1).None?
    ensures r.Err? ==> r.error == IndexError
    decreases |lectureToUrl|
  {
    if |lectureToUrl| == 0 then Ok([])
    else
      var id := LectureId(lectureToUrl[0].1);
      var rest := TitleToLectureId(lectureToUrl[1..]);
      if id.None? then Err(IndexError)
      else if rest.Err? then
        ghost var i :| 0 <= i < |lectureToUrl[1..]| && LectureId(lectureToUrl[1..][i].1).None?;
        assert lectureToUrl[i + 1] == lectureToUrl[1..][i];
        rest
      else
        PrependPair(lectureToUrl, id.value, rest.value);
        Ok([(lectureToUrl[0].0, id.value)] + rest.value)
  }

  /** Putting the first title back in front of the rest's result keeps the titles and shifts the positions by one. */
  lemma PrependPair(d: Dict<string>, v: string, rest: Dict<string>)
    requires |d| > 0 && Keys(rest) == Keys(d[1..])
    ensures Keys([(d[0].0, v)] + rest) == Keys(d)
    ensures forall i :: 1 <= i < |d| ==> d[i] == d[1..][i - 1] && ([(d[0].0, v)] + rest)[i] == rest[i - 1]
  {
    var r := [(d[0].0, v)] + rest;
    var kr, kd, krest, ktail := Keys(r), Keys(d), Keys(rest), Keys(d[1..]);
    assert |rest| == |d| - 1;
    forall i | 1 <= i < |d| ensures d[i] == d[1..][i - 1] && r[i] == rest[i - 1] {
    }
    forall i | 0 <= i < |d| ensures kr[i] == kd[i] {
      if i > 0 {
        assert krest[i - 1] == ktail[i - 1];
        assert kr[i] == rest[i - 1].0 && ktail[i - 1] == d[i].0;
      }
    }
    assert kr == kd;
  }

  // ---------------------------------------------------------------------------
  // id1 -> playlist URLs
  // ---------------------------------------------------------------------------

  /** The URLs whose base id is `id`, in input order. */
  function Select(urls: seq<string>, id: string): seq<string>
    decreases |urls|
  {
    if |urls| == 0 then []
    else Select(urls[..|urls| - 1], id) + (if Id1(urls[|urls| - 1]) == Some(id) then [urls[|urls| - 1]] else [])
  }

  /** `if id1 not in d: d[id1] = []` then `d[id1].append(url)`. */
  function AppendTo(groups: Dict<seq<string>>, id: string, url: string): Dict<seq<string>> {
    var existing := Get(groups, id);
    Set(groups, id, (if existing.Some? then existing.value else []) + [url])
  }

  /** The grouping loop over the observed URLs. */
  function GroupsOf(urls: seq<string>): Result<Dict<seq<string>>>
    decreases |urls|
  {
    if |urls| == 0 then Ok([])
    else
      var prev := GroupsOf(urls[..|urls| - 1]);
      var id := Id1(urls[|urls| - 1]);
      if prev.Err? then prev
      else if id.None? then Err(IndexError)
      else Ok(AppendTo(prev.value, id.value, urls[|urls| - 1]))
  }

  /** The concatenation of a dict's lists, in key order. */
  function Flatten(groups: Dict<seq<string>>): seq<string>
    decreases |groups|
  {
    if |groups| == 0 then [] else groups[0].1 + Flatten(groups[1..])
  }

  lemma {:induction false} SelectNone(urls: seq<string>, id: string)
    requires forall i :: 0 <= i < |urls| ==> Id1(urls[i]) != Some(id)
    ensures Select(urls, id) == []
    decreases |urls|
  {
    if |urls| > 0 {
      SelectNone(urls[..|urls| - 1], id);
    }
  }

  lemma {:induction false} GroupsErrorSticks(urls: seq<string>, i: nat)
    requires i <= |urls| && GroupsOf(urls[..i]).Err?
    ensures GroupsOf(urls).Err?
    decreases |urls| - i
  {
    if i == |urls| {
      assert urls[..i] == urls;
    } else {
      assert urls[..i + 1][..i] == urls[..i];
      GroupsErrorSticks(urls, i + 1);
    }
  }

  /** Grouping fails (IndexError) exactly when some URL has no segment 4. */
  lemma {:induction false} GroupsFailIff(urls: seq<string>)
    ensures GroupsOf(urls).Err? <==> exists i :: 0 <= i < |urls| && Id1(urls[i]).None?
    ensures GroupsOf(urls).Err? ==> GroupsOf(urls).error == IndexError
    decreases |urls|
  {
    if |urls| > 0 {
      var init := urls[..|urls| - 1];
      GroupsFailIff(init);
      if exists i :: 0 <= i < |init| && Id1(init[i]).None? {
        var i :| 0 <= i < |init| && Id1(init[i]).None?;
        assert urls[i] == init[i];
      }
      if exists i :: 0 <= i < |urls| && Id1(urls[i]).None? {
        var i :| 0 <= i < |urls| && Id1(urls[i]).None?;
        if i < |init| { assert init[i] == urls[i]; }
      }
    }
  }

  /** A base id has a list exactly when some URL carries it. */
  lemma {:induction false} GroupsKeyIff(urls: seq<string>, id: string)
    requires GroupsOf(urls).Ok?
    ensures Get(GroupsOf(urls).value, id).Some? <==> exists i :: 0 <= i < |urls| && Id1(urls[i]) == Some(id)
    decreases |urls|
  {
    if |urls| > 0 {
      var n := |urls| - 1;
      var init := urls[..n];
      var g := GroupsOf(init).value;
      var u := urls[n];
      var uid := Id1(u).value;
      GroupsKeyIff(init, id);
      var existing := Get(g, uid);
      GetSet(g, uid, (if existing.Some? then existing.value else []) + [u], id);
      if exists i :: 0 <= i < n && Id1(init[i]) == Some(id) {
        var i :| 0 <= i < n && Id1(init[i]) == Some(id);
        assert urls[i] == init[i];
      }
      if exists i :: 0 <= i < |urls| && Id1(urls[i]) == Some(id) {
        var i :| 0 <= i < |urls| && Id1(urls[i]) == Some(id);
        if i < n { assert init[i] == urls[i]; }
      }
    }
  }

  /** A base id's list holds the URLs that carry it, in input order. */
  lemma {:induction false} GroupsListIsSelect(urls: seq<string>, id: string)
    requires GroupsOf(urls).Ok?
    ensures Get(GroupsOf(urls).value, id).Some? ==> Get(GroupsOf(urls).value, id).value == Select(urls, id)
    decreases |urls|
  {
    if |urls| > 0 {
      var n := |urls| - 1;
      var init := urls[..n];
      var g := GroupsOf(init).value;
      var u := urls[n];
      var uid := Id1(u).value;
      GroupsListIsSelect(init, id);
      var existing := Get(g, uid);
      GetSet(g, uid, (if existing.Some? then existing.value else []) + [u], id);
      if uid == id && Get(g, id).None? {
        GroupsKeyIff(init, id);
        SelectNone(init, id);
      }
    }
  }

  /**
   * Every URL lands in the list of its own base id: a base id has a list
   * exactly when some URL carries it, and the list holds the URLs that carry
   * it, in input order.
   */
  lemma GroupsAt(urls: seq<string>, id: string)
    requires GroupsOf(urls).Ok?
    ensures Get(GroupsOf(urls).value, id).Some? <==> exists i :: 0 <= i < |urls| && Id1(urls[i]) == Some(id)
    ensures Get(GroupsOf(urls).value, id).Some? ==> Get(GroupsOf(urls).value, id).value == Select(urls, id)
  {
    GroupsKeyIff(urls, id);
    GroupsListIsSelect(urls, id);
  }

  lemma {:induction false} FlattenAppendTo(groups: Dict<seq<string>>, id: string, url: string)
    ensures multiset(Flatten(AppendTo(groups, id, url))) == multiset(Flatten(groups)) + multiset{url}
    decreases |groups|
  {
    if |groups| > 0 && groups[0].0 != id {
      FlattenAppendTo(groups[1..], id, url);
      assert AppendTo(groups, id, url) == [groups[0]] + AppendTo(groups[1..], id, url);
      assert ([groups[0]] + AppendTo(groups[1..], id, url))[1..] == AppendTo(groups[1..], id, url);
    } else if |groups| > 0 {
      assert AppendTo(groups, id, url)[1..] == groups[1..];
    }
  }

  /** The group lists together hold every URL exactly as often as the input: a permutation of it. */
  lemma {:induction false} GroupsArePermutation(urls: seq<string>)
    requires GroupsOf(urls).Ok?
    ensures multiset(Flatten(GroupsOf(urls).value)) == multiset(urls)
    decreases |urls|
  {
    if |urls| > 0 {
      var n := |urls| - 1;
      GroupsArePermutation(urls[..n]);
      FlattenAppendTo(GroupsOf(urls[..n]).value, Id1(urls[n]).value, urls[n]);
      assert urls == urls[..n] + [urls[n]];
    }
  }

  /** The grouping loop (`id1_to_m3u8s`). */
  method GroupById(urls: seq<string>) returns (r: Result<Dict<seq<string>>>)
    ensures r == GroupsOf(urls)
  {
    var groups: Dict<seq<string>> := [];
    var i := 0;
    while i < |urls|
      invariant 0 <= i <= |urls|
      invariant GroupsOf(urls[..i]) == Ok(groups)
    {
      assert urls[..i + 1][..i] == urls[..i];
      var id := Id1(urls[i]);
      if id.None? {
        GroupsErrorSticks(urls, i + 1);
        GroupsFailIff(urls);
        return Err(IndexError);
      }
      // `if id1 not in id1_to_m3u8s: id1_to_m3u8s[id1] = []`, then the append
      var current := Get(groups, id.value);
      var list: seq<string> := if current.Some? then current.value else [];
      groups := Set(groups, id.value, list + [urls[i]]);
      i := i + 1;
    }
    assert urls[..i] == urls;
    return Ok(groups);
  }

  // ---------------------------------------------------------------------------
  // panopto: id2 -> id1
  // ---------------------------------------------------------------------------

  /** The `id2_to_id1` loop: each URL writes its session id's entry, so the last write wins. */
  function TableOf(urls: seq<string>): Result<map<string, string>>
    decreases |urls|
  {
    if |urls| == 0 then Ok(map[])
    else
      var prev := TableOf(urls[..|urls| - 1]);
      var u := urls[|urls| - 1];
      if prev.Err? then prev
      else if Id1(u).None? || Id2(u).None? then Err(IndexError)
      else Ok(prev.value[Id2(u).value := Id1(u).value])
  }

  lemma {:induction false} TableErrorSticks(urls: seq<string>, i: nat)
    requires i <= |urls| && TableOf(urls[..i]).Err?
    ensures TableOf(urls).Err?
    decreases |urls| - i
  {
    if i == |urls| {
      assert urls[..i] == urls;
    } else {
      assert urls[..i + 1][..i] == urls[..i];
      TableErrorSticks(urls, i + 1);
    }
  }

  /** Last write wins: a URL with no later URL of the same session id decides that id's entry. */
  lemma {:induction false} TableLastWriteWins(urls: seq<string>, j: nat)
    requires TableOf(urls).Ok? && j < |urls|
    requires forall l :: j < l < |urls| ==> Id2(urls[l]) != Id2(urls[j])
    ensures Id2(urls[j]).Some? && Id1(urls[j]).Some?
    ensures Id2(urls[j]).value in TableOf(urls).value
    ensures TableOf(urls).value[Id2(urls[j]).value] == Id1(urls[j]).value
    decreases |urls|
  {
    var n := |urls| - 1;
    var init := urls[..n];
    if j < n {
      forall l | j < l < n ensures Id2(init[l]) != Id2(init[j]) {
        assert init[l] == urls[l];
      }
      assert init[j] == urls[j];
      TableLastWriteWins(init, j);
    }
  }

  /** Every entry of the table maps to the base id of some observed URL. */
  lemma {:induction false} TableValuesAreBaseIds(urls: seq<string>, key: string)
    requires TableOf(urls).Ok? && key in TableOf(urls).value
    ensures exists i :: 0 <= i < |urls| && Id1(urls[i]) == Some(TableOf(urls).value[key])
    decreases |urls|
  {
    var n := |urls| - 1;
    var init := urls[..n];
    if Id2(urls[n]) != Some(key) {
      TableValuesAreBaseIds(init, key);
      var i :| 0 <= i < n && Id1(init[i]) == Some(TableOf(init).value[key]);
      assert urls[i] == init[i];
    }
  }

  /** `k` is a key of the table exactly when some observed URL carries it as session id. */
  lemma {:induction false} TableKeyIff(urls: seq<string>, k: string)
    requires TableOf(urls).Ok?
    ensures k in TableOf(urls).value <==> exists j :: 0 <= j < |urls| && Id2(urls[j]) == Some(k)
    decreases |urls|
  {
    if |urls| > 0 {
      var n := |urls| - 1;
      var init := urls[..n];
      var u := urls[n];
      assert TableOf(init).Ok? && Id2(u).Some?;
      assert TableOf(urls).value == TableOf(init).value[Id2(u).value := Id1(u).value];
      TableKeyIff(init, k);
      if k in TableOf(init).value {
        var j :| 0 <= j < n && Id2(init[j]) == Some(k);
        assert urls[j] == init[j];
      }
      if exists j :: 0 <= j < |urls| && Id2(urls[j]) == Some(k) {
        var j :| 0 <= j < |urls| && Id2(urls[j]) == Some(k);
        if j < n {
          assert init[j] == urls[j];
        }
      }
    }
  }

  /** The table's keys are exactly the session ids the observed URLs carry. */
  lemma TableKeys(urls: seq<string>)
    requires TableOf(urls).Ok?
    ensures forall k :: k in TableOf(urls).value <==> exists j :: 0 <= j < |urls| && Id2(urls[j]) == Some(k)
  {
    forall k
      ensures k in TableOf(urls).value <==> exists j :: 0 <= j < |urls| && Id2(urls[j]) == Some(k)
    {
      TableKeyIff(urls, k);
    }
  }

  /** The session table fails (IndexError) exactly when some URL has no segment 5. */
  lemma {:induction false} TableFailsIff(urls: seq<string>)
    ensures TableOf(urls).Err? <==> exists i :: 0 <= i < |urls| && Id2(urls[i]).None?
    decreases |urls|
  {
    if |urls| > 0 {
      var init := urls[..|urls| - 1];
      TableFailsIff(init);
      if exists i :: 0 <= i < |init| && Id2(init[i]).None? {
        var i :| 0 <= i < |init| && Id2(init[i]).None?;
        assert urls[i] == init[i];
      }
      if exists i :: 0 <= i < |urls| && Id2(urls[i]).None? {
        var i :| 0 <= i < |urls| && Id2(urls[i]).None?;
        if i < |init| { assert init[i] == urls[i]; }
      }
    }
  }

  /** The `id2_to_id1` loop. */
  method BuildSessionTable(urls: seq<string>) returns (r: Result<map<string, string>>)
    ensures r == TableOf(urls)
  {
    var table: map<string, string> := map[];
    var i := 0;
    while i < |urls|
      invariant 0 <= i <= |urls|
      invariant TableOf(urls[..i]) == Ok(table)
    {
      assert urls[..i + 1][..i] == urls[..i];
      var id1 := Id1(urls[i]);
      var id2 := Id2(urls[i]);
      if id1.None? || id2.None? {
        TableErrorSticks(urls, i + 1);
        TableOnlyIndexError(urls);
        return Err(IndexError);
      }
      table := table[id2.value := id1.value];
      i := i + 1;
    }
    assert urls[..i] == urls;
    return Ok(table);
  }

  lemma {:induction false} TableOnlyIndexError(urls: seq<string>)
    ensures TableOf(urls).Err? ==> TableOf(urls) == Err(IndexError)
    decreases |urls|
  {
    if |urls| > 0 {
      TableOnlyIndexError(urls[..|urls| - 1]);
    }
  }

  // ---------------------------------------------------------------------------
  // the join
  // ---------------------------------------------------------------------------

  /** The base id a lecture id stands for: itself for matterhorn, its table entry for panopto. */
  function BaseIdOf(player: Player, table: map<string, string>, lectureId: string): Option<string> {
    match player
    case Matterhorn => Some(lectureId)
    case Panopto => if lectureId in table then Some(table[lectureId]) else None
  }

  /** The final comprehension: each title's list, or KeyError for the first id that is absent. */
  function LookupAll(ids: Dict<string>, player: Player, table: map<string, string>, groups: Dict<seq<string>>)
    : (r: Result<Dict<seq<string>>>)
    ensures r.Ok? ==> |r.value| == |ids| &&
                      forall i :: 0 <= i < |ids| ==>
                        r.value[i].0 == ids[i].0 &&
                        BaseIdOf(player, table, ids[i].1).Some? &&
                        Get(groups, BaseIdOf(player, table, ids[i].1).value) == Some(r.value[i].1)
    ensures r.Err? <==> exists i :: 0 <= i < |ids| && !Found(ids[i].1, player, table, groups)
    ensures r.Err? ==> r.error == KeyError
    decreases |ids|
  {
    if |ids| == 0 then Ok([])
    else
      var rest := LookupAll(ids[1..], player, table, groups);
      if !Found(ids[0].1, player, table, groups) then Err(KeyError)
      else if rest.Err? then
        ghost var i :| 0 <= i < |ids[1..]| && !Found(ids[1..][i].1, player, table, groups);
        assert ids[i + 1] == ids[1..][i];
        rest
      else
        var list := Get(groups, BaseIdOf(player, table, ids[0].1).value).value;
        assert forall i :: 1 <= i < |ids| ==> ids[i] == ids[1..][i - 1];
        Ok([(ids[0].0, list)] + rest.value)
  }

  predicate Found(lectureId: string, player: Player, table: map<string, string>, groups: Dict<seq<string>>) {
    BaseIdOf(player, table, lectureId).Some? && Get(groups, BaseIdOf(player, table, lectureId).value).Some?
  }

  /** `get_title_to_m3u8s` as one function of its inputs (the reference for the method). */
  function CorrelateSpec(lectureToUrl: Dict<string>, urls: seq<string>, player: Player): Result<Dict<seq<string>>> {
    var ids := TitleToLectureId(lectureToUrl);
    var groups := GroupsOf(urls);
    var table := if player == Panopto then TableOf(urls) else Ok(map[]);
    if ids.Err? then Err(ids.error)
    else if groups.Err? then Err(groups.error)
    else if table.Err? then Err(table.error)
    else LookupAll(ids.value, player, table.value, groups.value)
  }

  method TitleToM3u8s(lectureToUrl: Dict<string>, urls: seq<string>, player: Player)
    returns (r: Result<Dict<seq<string>>>)
    ensures r == CorrelateSpec(lectureToUrl, urls, player)
  {
    var ids := TitleToLectureId(lectureToUrl);
    if ids.Err? {
      return Err(ids.error);
    }
    var groups := GroupById(urls);
    if groups.Err? {
      return Err(groups.error);
    }
    var table: map<string, string> := map[];
    if player == Panopto {
      var built := BuildSessionTable(urls);
      if built.Err? {
        return Err(built.error);
      }
      table := built.value;
    }
    r := LookupAll(ids.value, player, table, groups.value);
  }

  /** The base id the join gives title `i`, when ids, groups and table were all built. */
  function TitleBaseId(lectureToUrl: Dict<string>, urls: seq<string>, player: Player, i: nat): Option<string>
    requires i < |lectureToUrl|
  {
    var id := LectureId(lectureToUrl[i].1);
    var table := if player == Panopto then TableOf(urls) else Ok(map[]);
    if id.None? || table.Err? then None else BaseIdOf(player, table.value, id.value)
  }

  /**
   * A successful join has exactly the input titles, in order, and gives each
   * title the (non-empty) list of observed URLs whose base id is the title's:
   * its lecture id for matterhorn, the table entry of its session id for panopto.
   */
  lemma CorrelateResult(lectureToUrl: Dict<string>, urls: seq<string>, player: Player)
    requires CorrelateSpec(lectureToUrl, urls, player).Ok?
    ensures var r := CorrelateSpec(lectureToUrl, urls, player).value;
            && Keys(r) == Keys(lectureToUrl)
            && forall i :: 0 <= i < |r| ==>
                 TitleBaseId(lectureToUrl, urls, player, i).Some? &&
                 r[i].1 == Select(urls, TitleBaseId(lectureToUrl, urls, player, i).value) &&
                 |r[i].1| > 0
  {
    var r := CorrelateSpec(lectureToUrl, urls, player).value;
    var ids := TitleToLectureId(lectureToUrl).value;
    assert Keys(ids) == Keys(lectureToUrl);
    forall i | 0 <= i < |r|
      ensures TitleBaseId(lectureToUrl, urls, player, i).Some?
      ensures r[i].1 == Select(urls, TitleBaseId(lectureToUrl, urls, player, i).value)
      ensures |r[i].1| > 0
    {
      var base := TitleBaseId(lectureToUrl, urls, player, i).value;
      GroupsAt(urls, base);
      var j :| 0 <= j < |urls| && Id1(urls[j]) == Some(base);
      SelectHas(urls, base, j);
    }
  }

  lemma {:induction false} SelectHas(urls: seq<string>, id: string, j: nat)
    requires j < |urls| && Id1(urls[j]) == Some(id)
    ensures urls[j] in Select(urls, id)
    decreases |urls|
  {
    var n := |urls| - 1;
    if j < n {
      assert urls[..n][j] == urls[j];
      SelectHas(urls[..n], id, j);
    }
  }

  /**
   * Once the ids, groups and table are built, the join fails (KeyError) exactly
   * when some title's id is absent: no URL has it as base id (matterhorn), or
   * no URL has it as session id (panopto).  One absent id aborts the whole
   * call.
   */
  lemma CorrelateFailsIffIdAbsent(lectureToUrl: Dict<string>, urls: seq<string>, player: Player)
    requires TitleToLectureId(lectureToUrl).Ok? && GroupsOf(urls).Ok?
    requires player == Panopto ==> TableOf(urls).Ok?
    ensures CorrelateSpec(lectureToUrl, urls, player).Err? <==>
            exists i :: 0 <= i < |lectureToUrl| && Absent(lectureToUrl, urls, player, i)
    ensures CorrelateSpec(lectureToUrl, urls, player).Err? ==> CorrelateSpec(lectureToUrl, urls, player).error == KeyError
  {
    var ids := TitleToLectureId(lectureToUrl).value;
    var table := if player == Panopto then TableOf(urls).value else map[];
    var groups := GroupsOf(urls).value;
    assert Keys(ids) == Keys(lectureToUrl);
    if player == Panopto {
      TableKeys(urls);
    }
    forall i | 0 <= i < |lectureToUrl|
      ensures !Found(ids[i].1, player, table, groups) <==> Absent(lectureToUrl, urls, player, i)
    {
      assert LectureId(lectureToUrl[i].1) == Some(ids[i].1);
      var base := BaseIdOf(player, table, ids[i].1);
      if base.Some? {
        GroupsAt(urls, base.value);
        if player == Panopto {
          TableValuesAreBaseIds(urls, ids[i].1);
        }
      }
    }
  }

  /** Title `i`'s lecture id names no observed stream. */
  predicate Absent(lectureToUrl: Dict<string>, urls: seq<string>, player: Player, i: nat)
    requires i < |lectureToUrl|
  {
    var id := LectureId(lectureToUrl[i].1);
    id.Some? &&
    match player
    case Matterhorn => forall j :: 0 <= j < |urls| ==> Id1(urls[j]) != Some(id.value)
    case Panopto => forall j :: 0 <= j < |urls| ==> Id2(urls[j]) != Some(id.value)
  }
}
