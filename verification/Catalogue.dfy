/**
 * The item rows behind the plays: enrichment gives every played item one, and the inventory says which
 * items are still in the library.
 */
module Catalogue {
  import opened Options
  import opened Text
  import opened PlayLedger

  /** An item as the server describes it, and what one metadata request comes back with. */
  datatype Listed = Listed(ratingKey: string, section: Option<string>)
  datatype Fetched = Answered(items: seq<Listed>) | Gone | TimedOut | Failed(reason: string)

  const METADATA_BATCH := 25

  // ---------------------------------------------------------------- the item rows

  function Upserted(items: map<string, Item>, listed: seq<Listed>, now: int): map<string, Item> {
    if |listed| == 0 then items
    else
      var last := listed[|listed| - 1];
      Upserted(items, listed[..|listed| - 1], now)[last.ratingKey := Item(last.section, true, now)]
  }

  function KeysOf(listed: seq<Listed>): (keys: set<string>)
  {
    set item | item in listed :: item.ratingKey
  }

  function Played(plays: map<int, Play>): set<string> {
    set id | id in plays :: plays[id].ratingKey
  }

  /** A row, marked absent, for each played key that has none. */
  function Stubbed(items: map<string, Item>, plays: map<int, Play>, keys: set<string>, now: int): map<string, Item> {
    items + map key | key in keys && key in Played(plays) && key !in items :: Item(None, false, now)
  }

  /** Played items with no row at all. */
  function Missing(plays: map<int, Play>, items: map<string, Item>): set<string> {
    Played(plays) - items.Keys
  }

  lemma {:induction false} UpsertedMeans(items: map<string, Item>, listed: seq<Listed>, now: int)
    ensures var after := Upserted(items, listed, now);
            && after.Keys == items.Keys + KeysOf(listed)
            && (forall key | key in KeysOf(listed) :: after[key].present && after[key].seenAt == now)
            && (forall key | key in items && key !in KeysOf(listed) :: after[key] == items[key])
    decreases |listed|
  {
    if |listed| > 0 {
      var front, last := listed[..|listed| - 1], listed[|listed| - 1];
      assert listed == front + [last];
      UpsertedMeans(items, front, now);
      assert KeysOf(listed) == KeysOf(front) + {last.ratingKey};
    }
  }

  // ---------------------------------------------------------------- the next batch

  predicate IsLeast(key: string, keys: set<string>) {
    key in keys && forall other | other in keys && other != key :: Less(key, other)
  }

  lemma {:induction false} HasLeast(keys: set<string>)
    requires keys != {}
    ensures exists key :: IsLeast(key, keys)
    decreases |keys|
  {
    var key := Element(keys);
    if keys == {key} {
      assert IsLeast(key, keys);
    } else {
      HasLeast(keys - {key});
      var least :| IsLeast(least, keys - {key});
      LessTrichotomy(key, least);
      OneMoreKey(keys, key, least);
    }
  }

  lemma OneMoreKey(keys: set<string>, key: string, least: string)
    requires key in keys && IsLeast(least, keys - {key})
    ensures IsLeast(if Less(key, least) then key else least, keys)
  {
    LessTrichotomy(key, least);
    forall other | other in keys && other != key && Less(key, least) ensures Less(key, other) {
      if other != least {
        LessTransitive(key, least, other);
      }
    }
  }

  /** The first keys of a set in text order, up to a limit. */
  ghost predicate FirstOf(batch: seq<string>, keys: set<string>, limit: nat)
    decreases limit
  {
    if limit == 0 || keys == {} then batch == []
    else |batch| > 0 && IsLeast(batch[0], keys) && FirstOf(batch[1..], keys - {batch[0]}, limit - 1)
  }

  lemma {:induction false} FirstOfMeans(batch: seq<string>, keys: set<string>, limit: nat)
    requires FirstOf(batch, keys, limit)
    ensures |batch| == if |keys| < limit then |keys| else limit
    ensures forall key | key in batch :: key in keys
    ensures (set key | key in batch) <= keys && |set key | key in batch| == |batch|
    decreases limit
  {
    if limit > 0 && keys != {} {
      FirstOfMeans(batch[1..], keys - {batch[0]}, limit - 1);
      assert batch == [batch[0]] + batch[1..];
      assert (set key | key in batch) == {batch[0]} + (set key | key in batch[1..]);
    }
  }

  method MissingItemKeys(t: Tables, limit: nat) returns (batch: seq<string>)
    ensures FirstOf(batch, Missing(t.plays, t.items), limit)
  {
    batch := FirstKeys(Missing(t.plays, t.items), limit);
  }

  method FirstKeys(keys: set<string>, limit: nat) returns (batch: seq<string>)
    ensures FirstOf(batch, keys, limit)
    decreases limit
  {
    if limit == 0 || keys == {} {
      return [];
    }
    HasLeast(keys);
    var key :| IsLeast(key, keys);
    var rest := FirstKeys(keys - {key}, limit - 1);
    assert ([key] + rest)[1..] == rest;
    return [key] + rest;
  }

  // ---------------------------------------------------------------- keeping an answer

  /** `storeAnswered`: keep what was described, and stub the keys that were not. */
  method StoreAnswered(t: Tables, keys: seq<string>, described: seq<Listed>, now: int)
    modifies t`items
    ensures t.items == Stubbed(Upserted(old(t.items), described, now), t.plays,
                               (set key | key in keys) - KeysOf(described), now)
  {
    var unanswered := (set key | key in keys) - KeysOf(described);
    UpsertItems(t, described, now);
    t.items := t.items + map key | key in unanswered && key in Played(t.plays) && key !in t.items ::
      Item(None, false, now);
  }

  method UpsertItems(t: Tables, listed: seq<Listed>, now: int)
    modifies t`items
    ensures t.items == Upserted(old(t.items), listed, now)
  {
    for i := 0 to |listed|
      invariant t.items == Upserted(old(t.items), listed[..i], now)
    {
      assert listed[..i + 1][..i] == listed[..i];
      t.items := t.items[listed[i].ratingKey := Item(listed[i].section, true, now)];
    }
    assert listed[..|listed|] == listed;
  }

  /** Whatever enrichment does to a row: leaves it, describes it as present now, or adds an absent stub. */
  ghost predicate OnlyEnriched(before: map<string, Item>, after: map<string, Item>, now: int) {
    && before.Keys <= after.Keys
    && forall key | key in after ::
         || (key in before && after[key] == before[key])
         || (after[key].present && after[key].seenAt == now)
         || (key !in before && after[key] == Item(None, false, now))
  }

  lemma StoringEnriches(items: map<string, Item>, plays: map<int, Play>, keys: set<string>, described: seq<Listed>,
                        now: int)
    requires keys <= Played(plays)
    ensures var after := Stubbed(Upserted(items, described, now), plays, keys - KeysOf(described), now);
            && OnlyEnriched(items, after, now)
            && Missing(plays, after) <= Missing(plays, items) - keys
  {
    UpsertedMeans(items, described, now);
  }

  lemma EnrichedTwice(a: map<string, Item>, b: map<string, Item>, c: map<string, Item>, now: int)
    requires OnlyEnriched(a, b, now) && OnlyEnriched(b, c, now)
    ensures OnlyEnriched(a, c, now)
  {
  }

  // ---------------------------------------------------------------- enrichment

  /** A server answers request number `n` for some keys any way it likes, but names each failure. */
  ghost predicate NamesFailures(server: (nat, seq<string>) -> Fetched) {
    forall n, keys :: server(n, keys).Failed? ==> server(n, keys).reason != ""
  }

  /** `enrichSingly`: each key on its own; one that stalls alone is stubbed, any other failure ends it. */
  method EnrichSingly(t: Tables, server: (nat, seq<string>) -> Fetched, keys: seq<string>, now: int, asked: nat)
    returns (reason: string, after: nat)
    requires NamesFailures(server) && forall key | key in keys :: key in Played(t.plays)
    modifies t`items
    ensures OnlyEnriched(old(t.items), t.items, now)
    ensures Missing(t.plays, t.items) <= Missing(t.plays, old(t.items))
    ensures reason == "" ==> Missing(t.plays, t.items) <= Missing(t.plays, old(t.items)) - (set key | key in keys)
    ensures after <= asked + |keys|
  {
    hide OnlyEnriched;
    reason, after := "", asked;
    assert OnlyEnriched(old(t.items), t.items, now) by { Unchanged(t.items, now); }
    var i := 0;
    while i < |keys| && reason == ""
      invariant i <= |keys| && after <= asked + i
      invariant OnlyEnriched(old(t.items), t.items, now)
      invariant Missing(t.plays, t.items) <= Missing(t.plays, old(t.items))
      invariant reason == "" ==>
                  Missing(t.plays, t.items) <= Missing(t.plays, old(t.items)) - (set key | key in keys[..i])
      decreases |keys| - i, reason == ""
    {
      var key := keys[i];
      assert key in keys && keys[..i + 1] == keys[..i] + [key];
      var fetched := server(after, [key]);
      after := after + 1;
      ghost var before := t.items;
      if fetched.Failed? {
        reason := fetched.reason;
      } else {
        var described := if fetched.Answered? then fetched.items else [];
        StoreAnswered(t, [key], described, now);
        assert (set k | k in [key]) == {key};
        StoringEnriches(before, t.plays, {key}, described, now);
        EnrichedTwice(old(t.items), before, t.items, now);
      }
      i := i + 1;
    }
    assert reason == "" ==> keys[..i] == keys;
  }

  lemma Unchanged(items: map<string, Item>, now: int)
    ensures OnlyEnriched(items, items, now)
  {
  }

  /**
   * `enrichItems` ends for every server: each round leaves strictly fewer played items without a row.
   * Success leaves none, and at most two requests are made for each item that was missing.
   */
  method EnrichItems(t: Tables, server: (nat, seq<string>) -> Fetched, now: int, asked: nat)
    returns (reason: string, after: nat)
    requires NamesFailures(server)
    modifies t`items
    ensures OnlyEnriched(old(t.items), t.items, now)
    ensures Missing(t.plays, t.items) <= Missing(t.plays, old(t.items))
    ensures reason == "" ==> Missing(t.plays, t.items) == {}
    ensures after <= asked + 2 * |Missing(t.plays, old(t.items))|
    decreases |Missing(t.plays, t.items)|
  {
    hide OnlyEnriched, Missing, Upserted, Stubbed, KeysOf, FirstOf;
    ghost var missing := Missing(t.plays, t.items);
    Unchanged(t.items, now);
    var keys := MissingItemKeys(t, METADATA_BATCH);
    FirstOfMeans(keys, missing, METADATA_BATCH);
    ArePlayed(t.plays, t.items);
    ghost var batch := set key | key in keys;
    if |keys| == 0 {
      return "", asked;
    }
    var fetched := server(asked, keys);
    after := asked + 1;
    if fetched.TimedOut? {
      reason, after := EnrichSingly(t, server, keys, now, after);
      if reason != "" {
        return;
      }
    } else if fetched.Failed? {
      return fetched.reason, after;
    } else {
      var described := if fetched.Answered? then fetched.items else [];
      StoringEnriches(t.items, t.plays, batch, described, now);
      StoreAnswered(t, keys, described, now);
    }
    ghost var between := t.items;
    Shrinks(Missing(t.plays, t.items), missing, batch);
    reason, after := EnrichItems(t, server, now, after);
    EnrichedTwice(old(t.items), between, t.items, now);
  }

  lemma ArePlayed(plays: map<int, Play>, items: map<string, Item>)
    ensures Missing(plays, items) <= Played(plays)
  {
  }

  lemma Shrinks(now: set<string>, before: set<string>, batch: set<string>)
    requires now <= before - batch && batch <= before && |batch| > 0
    ensures |now| <= |before| - |batch|
  {
    assert |before - batch| == |before| - |batch|;
    SubsetSize(now, before - batch);
  }

  // ---------------------------------------------------------------- the inventory

  /** One page of a section's listing; the listing does not name its section on each row. */
  datatype Leaf = Unread(reason: string) | Leaves(keys: seq<string>, size: Option<nat>, total: nat)

  function InSection(keys: seq<string>, section: string): (listed: seq<Listed>)
    ensures |listed| == |keys|
  {
    seq(|keys|, i requires 0 <= i < |keys| => Listed(keys[i], Some(section)))
  }

  predicate LastLeaf(page: Leaf, start: nat)
    requires page.Leaves?
  {
    page.size.None? || page.size.value == 0 || start + page.size.value >= page.total
  }

  /** What a section's pages list before they end or fail, and the failure. */
  function SectionListed(replies: seq<Leaf>, section: string, start: nat): seq<Listed>
    decreases |replies|
  {
    if |replies| == 0 || replies[0].Unread? then []
    else
      InSection(replies[0].keys, section)
      + if LastLeaf(replies[0], start) then [] else SectionListed(replies[1..], section, start + replies[0].size.value)
  }

  /** A listing that stops answering fails like any other. */
  function SectionReason(replies: seq<Leaf>, start: nat): string
    decreases |replies|
  {
    if |replies| == 0 then "timeout"
    else if replies[0].Unread? then replies[0].reason
    else if LastLeaf(replies[0], start) then ""
    else SectionReason(replies[1..], start + replies[0].size.value)
  }

  function RunListed(sections: seq<string>, library: string -> seq<Leaf>, excluded: set<string>): seq<Listed> {
    if |sections| == 0 then []
    else
      var last := sections[|sections| - 1];
      RunListed(sections[..|sections| - 1], library, excluded)
      + if last in excluded then [] else SectionListed(library(last), last, 0)
  }

  /** The failure kept is the last one. */
  function RunFailure(sections: seq<string>, library: string -> seq<Leaf>, excluded: set<string>): string {
    if |sections| == 0 then ""
    else
      var last := sections[|sections| - 1];
      if last !in excluded && SectionReason(library(last), 0) != "" then SectionReason(library(last), 0)
      else RunFailure(sections[..|sections| - 1], library, excluded)
  }

  /** `retireUnseenItems`. */
  function UnseenRetired(items: map<string, Item>, seenBefore: int): map<string, Item> {
    map key | key in items :: items[key].(present := items[key].present && items[key].seenAt >= seenBefore)
  }

  function Inventoried(items: map<string, Item>, sections: seq<string>, library: string -> seq<Leaf>,
                       excluded: set<string>, now: int): map<string, Item> {
    var listed := Upserted(items - InSections(items, excluded), RunListed(sections, library, excluded), now);
    if RunFailure(sections, library, excluded) == "" then UnseenRetired(listed, now) else listed
  }

  lemma {:induction false} UpsertedConcat(items: map<string, Item>, first: seq<Listed>, rest: seq<Listed>, now: int)
    ensures Upserted(items, first + rest, now) == Upserted(Upserted(items, first, now), rest, now)
    decreases |rest|
  {
    if |rest| == 0 {
      assert first + rest == first;
    } else {
      assert (first + rest)[..|first + rest| - 1] == first + rest[..|rest| - 1];
      UpsertedConcat(items, first, rest[..|rest| - 1], now);
    }
  }

  method PageSection(t: Tables, replies: seq<Leaf>, section: string, now: int, start: nat) returns (reason: string)
    modifies t`items
    ensures t.items == Upserted(old(t.items), SectionListed(replies, section, start), now)
    ensures reason == SectionReason(replies, start)
    decreases |replies|
  {
    hide Upserted;
    if |replies| == 0 {
      NothingListed(t.items, now);
      return "timeout";
    }
    match replies[0]
    case Unread(why) =>
      NothingListed(t.items, now);
      return why;
    case Leaves(keys, size, total) =>
      UpsertItems(t, InSection(keys, section), now);
      if size.None? || size.value == 0 || start + size.value >= total {
        assert InSection(keys, section) + [] == InSection(keys, section);
        return "";
      }
      UpsertedConcat(old(t.items), InSection(keys, section), SectionListed(replies[1..], section, start + size.value),
                     now);
      reason := PageSection(t, replies[1..], section, now, start + size.value);
  }

  lemma NothingListed(items: map<string, Item>, now: int)
    ensures Upserted(items, [], now) == items
  {
  }

  /** `syncLibrary` once the sections are known: every one is paged even after a failure. */
  method SyncLibrary(t: Tables, sections: seq<string>, library: string -> seq<Leaf>, excluded: set<string>, now: int)
    returns (complete: bool)
    modifies t`plays, t`items
    ensures t.plays == Purged(old(t.plays), excluded, InSections(old(t.items), excluded))
    ensures t.items == Inventoried(old(t.items), sections, library, excluded, now)
    ensures complete <==> RunFailure(sections, library, excluded) == ""
  {
    t.PurgeSections(excluded);
    ghost var purged := t.items;
    var failure := "";
    NothingListed(t.items, now);
    hide Upserted, SectionListed, SectionReason;
    for i := 0 to |sections|
      invariant t.plays == Purged(old(t.plays), excluded, InSections(old(t.items), excluded))
      invariant t.items == Upserted(purged, RunListed(sections[..i], library, excluded), now)
      invariant failure == RunFailure(sections[..i], library, excluded)
    {
      var section := sections[i];
      assert sections[..i + 1][..i] == sections[..i] && sections[..i + 1][i] == section;
      ghost var earlier := RunListed(sections[..i], library, excluded);
      if section in excluded {
        assert earlier + [] == earlier;
      } else {
        UpsertedConcat(purged, earlier, SectionListed(library(section), section, 0), now);
        var reason := PageSection(t, library(section), section, now, 0);
        if reason != "" {
          failure := reason;
        }
      }
    }
    assert sections[..|sections|] == sections;
    complete := failure == "";
    if complete {
      t.items := map key | key in t.items ::
        t.items[key].(present := t.items[key].present && t.items[key].seenAt >= now);
    }
  }

  lemma {:induction false} RunIsComplete(sections: seq<string>, library: string -> seq<Leaf>, excluded: set<string>)
    ensures RunFailure(sections, library, excluded) == ""
            <==> forall section | section in sections && section !in excluded ::
                 SectionReason(library(section), 0) == ""
    decreases |sections|
  {
    if |sections| > 0 {
      var front, last := sections[..|sections| - 1], sections[|sections| - 1];
      assert sections == front + [last];
      RunIsComplete(front, library, excluded);
    }
  }

  /**
   * A complete inventory leaves present what it listed, and besides that only what was already stamped
   * with this instant or a later one; an incomplete one never marks a present item absent. Only rows of
   * excluded sections go.
   */
  lemma InventoryMeans(items: map<string, Item>, sections: seq<string>, library: string -> seq<Leaf>,
                       excluded: set<string>, now: int)
    ensures var after := Inventoried(items, sections, library, excluded, now);
            var kept, listed := items.Keys - InSections(items, excluded),
                                KeysOf(RunListed(sections, library, excluded));
            && after.Keys == kept + listed
            && (RunFailure(sections, library, excluded) == "" ==>
                  forall key | key in after ::
                    after[key].present <==> key in listed || (items[key].present && items[key].seenAt >= now))
            && (RunFailure(sections, library, excluded) != "" ==>
                  forall key | key in after :: after[key].present <==> key in listed || items[key].present)
  {
    UpsertedMeans(items - InSections(items, excluded), RunListed(sections, library, excluded), now);
    hide Upserted, RunListed, RunFailure, InSections;
  }
}
