/**
 * The inventory against what the server holds: replies read off each section's own listing, and what a
 * run of them leaves present.
 */
module Inventory {
  import opened Options
  import opened PlayLedger
  import opened Catalogue

  // ---------------------------------------------------------------- a section's listing

  /** One row of a section's listing; one that names no playable item is counted and skipped. */
  type Listing = seq<Option<string>>

  function Readable(rows: Listing): (keys: seq<string>)
    ensures forall key :: key in keys <==> Some(key) in rows
  {
    if |rows| == 0 then []
    else
      assert forall row :: row in rows <==> row in rows[..|rows| - 1] || row == rows[|rows| - 1];
      Readable(rows[..|rows| - 1]) + if rows[|rows| - 1].Some? then [rows[|rows| - 1].value] else []
  }

  /**
   * A reply read off the listing: its size is that of the next rows from `start`, none only at the end,
   * its total that of the listing, and a failure says why.
   */
  ghost predicate LeafFrom(reply: Leaf, listing: Listing, start: nat) {
    match reply
    case Unread(reason) => reason != ""
    case Leaves(keys, size, total) =>
      && size.Some? && total == |listing| && start + size.value <= |listing|
      && keys == Readable(listing[start..start + size.value])
      && (size.value == 0 ==> start == |listing|)
  }

  ghost predicate LeavesFrom(replies: seq<Leaf>, listing: Listing, start: nat)
    decreases |replies|
  {
    |replies| == 0
    || (LeafFrom(replies[0], listing, start)
        && (replies[0].Leaves? ==> LeavesFrom(replies[1..], listing, start + replies[0].size.value)))
  }

  /** How far the replies get before one fails or they run out. */
  function Reached(replies: seq<Leaf>, start: nat): nat
    decreases |replies|
  {
    if |replies| == 0 || replies[0].Unread? || replies[0].size.None? then start
    else Reached(replies[1..], start + replies[0].size.value)
  }

  /** A page that does not say its size, or says it is empty, is the last of its section. */
  lemma EmptyLeafEnds(page: Leaf, rest: seq<Leaf>, section: string, start: nat)
    requires page.Leaves? && (page.size.None? || page.size == Some(0))
    ensures SectionListed([page] + rest, section, start) == SectionListed([page], section, start)
    ensures SectionReason([page] + rest, start) == SectionReason([page], start) == ""
  {
    hide InSection;
  }

  predicate Fails(library: string -> seq<Leaf>, excluded: set<string>, section: string) {
    section !in excluded && SectionReason(library(section), 0) != ""
  }

  /** Of the sections that failed, the reason kept is that of the one paged last. */
  lemma {:induction false} LastFailureIsKept(sections: seq<string>, library: string -> seq<Leaf>, excluded: set<string>,
                                             k: nat)
    requires k < |sections| && Fails(library, excluded, sections[k])
    requires forall i | k < i < |sections| :: !Fails(library, excluded, sections[i])
    ensures RunFailure(sections, library, excluded) == SectionReason(library(sections[k]), 0)
    decreases |sections|
  {
    hide SectionReason;
    if k < |sections| - 1 {
      LastFailureIsKept(sections[..|sections| - 1], library, excluded, k);
    }
  }

  lemma {:induction false} ReachedStaysInside(replies: seq<Leaf>, listing: Listing, start: nat)
    requires LeavesFrom(replies, listing, start) && start <= |listing|
    ensures start <= Reached(replies, start) <= |listing|
    decreases |replies|
  {
    if |replies| > 0 && replies[0].Leaves? {
      ReachedStaysInside(replies[1..], listing, start + replies[0].size.value);
    }
  }

  lemma SplitReadable(listing: Listing, start: nat, size: nat, key: string)
    requires start + size <= |listing|
    ensures key in Readable(listing[start..])
            <==> key in Readable(listing[start..start + size]) || key in Readable(listing[start + size..])
  {
    assert listing[start..] == listing[start..start + size] + listing[start + size..];
  }

  lemma InSectionMeans(keys: seq<string>, section: string, key: string)
    ensures Listed(key, Some(section)) in InSection(keys, section) <==> key in keys
    ensures forall item | item in InSection(keys, section) :: item.section == Some(section)
  {
    var listed := InSection(keys, section);
    assert forall i | 0 <= i < |keys| :: listed[i] == Listed(keys[i], Some(section));
    if key in keys {
      var i :| 0 <= i < |keys| && keys[i] == key;
      assert listed[i] == Listed(key, Some(section));
    }
    if Listed(key, Some(section)) in listed {
      var i :| 0 <= i < |keys| && listed[i] == Listed(key, Some(section));
    }
  }

  /** A section that answers to its end lists every item it holds; one that fails lists none it does not. */
  lemma {:induction false} SectionListsWhatItHolds(replies: seq<Leaf>, listing: Listing, section: string, start: nat,
                                                   key: string)
    requires LeavesFrom(replies, listing, start) && start <= |listing|
    ensures Listed(key, Some(section)) in SectionListed(replies, section, start) ==> key in Readable(listing[start..])
    ensures SectionReason(replies, start) == "" && key in Readable(listing[start..]) ==>
              Listed(key, Some(section)) in SectionListed(replies, section, start)
    ensures forall item | item in SectionListed(replies, section, start) :: item.section == Some(section)
    decreases |replies|
  {
    hide Readable, InSection, SectionListed, SectionReason, LeavesFrom;
    FirstLeaf(replies, listing, section, start);
    if |replies| > 0 && replies[0].Leaves? {
      var page := replies[0];
      var next := start + page.size.value;
      SplitReadable(listing, start, page.size.value, key);
      InSectionMeans(page.keys, section, key);
      if next < |listing| {
        SectionListsWhatItHolds(replies[1..], listing, section, next, key);
      } else {
        AtTheEnd(listing, next, key);
      }
    }
  }

  lemma FirstLeaf(replies: seq<Leaf>, listing: Listing, section: string, start: nat)
    requires LeavesFrom(replies, listing, start) && start <= |listing|
    ensures |replies| == 0 || replies[0].Unread? ==>
              SectionListed(replies, section, start) == [] && SectionReason(replies, start) != ""
    ensures |replies| > 0 && replies[0].Leaves? ==>
              var page := replies[0];
              && page.size.Some? && start + page.size.value <= |listing|
              && page.keys == Readable(listing[start..start + page.size.value])
              && var next := start + page.size.value;
                 if next < |listing| then
                   && LeavesFrom(replies[1..], listing, next)
                   && SectionListed(replies, section, start)
                      == InSection(page.keys, section) + SectionListed(replies[1..], section, next)
                   && SectionReason(replies, start) == SectionReason(replies[1..], next)
                 else
                   && SectionListed(replies, section, start) == InSection(page.keys, section)
                   && SectionReason(replies, start) == ""
  {
    hide Readable;
  }

  lemma AtTheEnd(listing: Listing, start: nat, key: string)
    requires start == |listing|
    ensures key !in Readable(listing[start..])
  {
  }

  /** A section succeeds exactly when its replies get to the end of its listing. */
  lemma {:induction false} SectionSucceeds(replies: seq<Leaf>, listing: Listing, start: nat)
    requires LeavesFrom(replies, listing, start) && start <= |listing|
    ensures SectionReason(replies, start) == ""
            <==> |replies| > 0 && replies[0].Leaves? && Reached(replies, start) == |listing|
    decreases |replies|
  {
    if |replies| > 0 && replies[0].Leaves? {
      var next := start + replies[0].size.value;
      ReachedStaysInside(replies[1..], listing, next);
      if next < |listing| {
        SectionSucceeds(replies[1..], listing, next);
      }
    }
  }

  // ---------------------------------------------------------------- the whole run

  /** Every paged section's replies are read off what it holds. */
  ghost predicate ReadOff(sections: seq<string>, library: string -> seq<Leaf>, holds: string -> Listing,
                          excluded: set<string>) {
    forall section | section in sections && section !in excluded :: LeavesFrom(library(section), holds(section), 0)
  }

  /** An item of some section that is not excluded. */
  predicate HeldIn(sections: seq<string>, holds: string -> Listing, excluded: set<string>, key: string,
                   section: string) {
    section in sections && section !in excluded && Some(key) in holds(section)
  }

  lemma {:induction false} RunListsWhatIsHeld(sections: seq<string>, library: string -> seq<Leaf>,
                                              holds: string -> Listing, excluded: set<string>, key: string)
    requires ReadOff(sections, library, holds, excluded)
    ensures forall item | item in RunListed(sections, library, excluded) && item.ratingKey == key ::
              item.section.Some? && HeldIn(sections, holds, excluded, key, item.section.value)
    ensures RunFailure(sections, library, excluded) == "" ==>
              forall section | HeldIn(sections, holds, excluded, key, section) ::
                Listed(key, Some(section)) in RunListed(sections, library, excluded)
    decreases |sections|
  {
    if |sections| > 0 {
      var front, last := sections[..|sections| - 1], sections[|sections| - 1];
      assert sections == front + [last];
      assert forall section :: section in sections <==> section in front || section == last;
      RunListsWhatIsHeld(front, library, holds, excluded, key);
      if last !in excluded {
        SectionListsWhatItHolds(library(last), holds(last), last, 0, key);
        assert holds(last)[0..] == holds(last);
      }
      hide SectionListed, SectionReason, LeavesFrom;
    }
  }

  /**
   * A run in which every paged section answered to its end leaves present exactly the items the server
   * holds in the sections that are not excluded, given a clock that moved on since every earlier sighting.
   */
  lemma CompleteInventoryIsExact(items: map<string, Item>, sections: seq<string>, library: string -> seq<Leaf>,
                                 holds: string -> Listing, excluded: set<string>, now: int, key: string)
    requires ReadOff(sections, library, holds, excluded)
    requires forall section | section in sections && section !in excluded ::
               |library(section)| > 0 && library(section)[0].Leaves?
               && Reached(library(section), 0) == |holds(section)|
    requires forall known | known in items :: items[known].seenAt < now
    ensures var after := Inventoried(items, sections, library, excluded, now);
            (key in after && after[key].present) <==> exists section :: HeldIn(sections, holds, excluded, key, section)
  {
    AnsweredRunIsComplete(sections, library, holds, excluded);
    RunListsWhatIsHeld(sections, library, holds, excluded, key);
    InventoryMeans(items, sections, library, excluded, now);
    hide Inventoried, RunListed, RunFailure, ReadOff, InSections, HeldIn;
    var listed := RunListed(sections, library, excluded);
    if item :| item in listed && item.ratingKey == key {
      assert HeldIn(sections, holds, excluded, key, item.section.value);
    }
    if section :| HeldIn(sections, holds, excluded, key, section) {
      assert Listed(key, Some(section)) in listed;
    }
  }

  lemma AnsweredRunIsComplete(sections: seq<string>, library: string -> seq<Leaf>, holds: string -> Listing,
                              excluded: set<string>)
    requires ReadOff(sections, library, holds, excluded)
    ensures RunFailure(sections, library, excluded) == ""
            <==> forall section | section in sections && section !in excluded ::
                   |library(section)| > 0 && library(section)[0].Leaves?
                   && Reached(library(section), 0) == |holds(section)|
  {
    RunIsComplete(sections, library, excluded);
    forall section | section in sections && section !in excluded
      ensures SectionReason(library(section), 0) == ""
              <==> |library(section)| > 0 && library(section)[0].Leaves?
                   && Reached(library(section), 0) == |holds(section)|
    {
      SectionSucceeds(library(section), holds(section), 0);
    }
    hide RunFailure, SectionReason, Reached, LeavesFrom;
  }

  /**
   * However the sections answer, an item still held is never marked absent, a row that a section listed
   * is present, of that section and seen now, and a row nobody listed is at most marked absent.
   */
  lemma InventoryKeepsWhatIsHeld(items: map<string, Item>, sections: seq<string>, library: string -> seq<Leaf>,
                                 holds: string -> Listing, excluded: set<string>, now: int, key: string)
    requires ReadOff(sections, library, holds, excluded)
    ensures var after := Inventoried(items, sections, library, excluded, now);
            && ((exists section :: HeldIn(sections, holds, excluded, key, section))
                && key in items && key !in InSections(items, excluded) && items[key].present ==>
                  key in after && after[key].present)
            && (key in after && (key !in items || after[key] != items[key]) ==>
                  || (key in items && after[key] == items[key].(present := false))
                  || exists section :: HeldIn(sections, holds, excluded, key, section)
                                       && after[key] == Item(Some(section), true, now))
  {
    var kept, listed := items - InSections(items, excluded), RunListed(sections, library, excluded);
    RunListsWhatIsHeld(sections, library, holds, excluded, key);
    InventoryMeans(items, sections, library, excluded, now);
    UpsertedMeans(kept, listed, now);
    UpsertedFrom(kept, listed, now, key);
    hide RunListed, RunFailure, ReadOff, InSections, HeldIn, Upserted;
    if section :| HeldIn(sections, holds, excluded, key, section) && RunFailure(sections, library, excluded) == "" {
      assert Listed(key, Some(section)) in listed;
    }
  }

  /** What a listed item's row says is what the listing said of it. */
  lemma {:induction false} UpsertedFrom(items: map<string, Item>, listed: seq<Listed>, now: int, key: string)
    ensures key in KeysOf(listed) ==>
              exists item :: item in listed && item.ratingKey == key
                             && key in Upserted(items, listed, now)
                             && Upserted(items, listed, now)[key] == Item(item.section, true, now)
    decreases |listed|
  {
    if |listed| > 0 {
      var front, last := listed[..|listed| - 1], listed[|listed| - 1];
      assert listed == front + [last];
      UpsertedMeans(items, front, now);
      UpsertedMeans(items, listed, now);
      UpsertedFrom(items, front, now, key);
      if key != last.ratingKey && key in KeysOf(listed) {
        assert key in KeysOf(front);
        var item :| item in front && item.ratingKey == key
          && Upserted(items, front, now)[key] == Item(item.section, true, now);
        assert item in listed;
      } else if key in KeysOf(listed) {
        assert last in listed;
      }
    }
  }
}
