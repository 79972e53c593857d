/** What the registration workflow's loop computes, as functions of the part table it starts
    from and the ordered list of (part id, quantity) entries. Each function folds over the
    list from the left, one entry at a time, the way the loop walks it. */
module Consumption {
  import opened Entities

  /** The part table after applying every entry: an entry naming a known part lowers that
      part's stock by the entry's quantity (no floor, any sign); unknown parts are skipped. */
  function Consume(parts: map<int, Part>, uses: seq<PartUse>): (r: map<int, Part>)
    ensures r.Keys == parts.Keys
    decreases |uses|
  {
    if uses == [] then parts
    else
      var before := Consume(parts, uses[..|uses| - 1]);
      var u := uses[|uses| - 1];
      if u.partId in before
      then before[u.partId := before[u.partId].(stock := before[u.partId].stock - u.quantity)]
      else before
  }

  /** The links the loop adds for the new service `sid`: one per entry naming a part of
      `parts`, keyed by (sid, part id), holding the entry's quantity. */
  function NewLinks(sid: int, parts: map<int, Part>, uses: seq<PartUse>): map<LinkKey, int>
    decreases |uses|
  {
    if uses == [] then map[]
    else
      var before := NewLinks(sid, parts, uses[..|uses| - 1]);
      var u := uses[|uses| - 1];
      if u.partId in parts then before[LinkKey(sid, u.partId) := u.quantity] else before
  }

  /** The total quantity that the entries ask of part `pid`. */
  function SumQuantities(uses: seq<PartUse>, pid: int): int
    decreases |uses|
  {
    if uses == [] then 0
    else
      var u := uses[|uses| - 1];
      SumQuantities(uses[..|uses| - 1], pid) + (if u.partId == pid then u.quantity else 0)
  }

  /** How many entries name a part of `parts`. */
  function KnownCount(parts: map<int, Part>, uses: seq<PartUse>): nat
    decreases |uses|
  {
    if uses == [] then 0
    else KnownCount(parts, uses[..|uses| - 1]) + (if uses[|uses| - 1].partId in parts then 1 else 0)
  }

  /** Some entry names the part of `uses[j]`. */
  predicate Names(uses: seq<PartUse>, pid: int) {
    exists j :: 0 <= j < |uses| && uses[j].partId == pid
  }

  /** Two entries name the same known part: their links would share one primary key. */
  predicate RepeatsKnownPart(parts: map<int, Part>, uses: seq<PartUse>) {
    exists i, j :: 0 <= i < j < |uses| && uses[i].partId == uses[j].partId && uses[i].partId in parts
  }

  /** An entry list names a part when its prefix does or its last entry does. */
  lemma NamesSnoc(uses: seq<PartUse>, pid: int)
    requires uses != []
    ensures Names(uses, pid) <==> Names(uses[..|uses| - 1], pid) || uses[|uses| - 1].partId == pid
  {
    var prefix := uses[..|uses| - 1];
    assert forall j :: 0 <= j < |prefix| ==> prefix[j] == uses[j];
  }

  // ---------------------------------------------------------------- stock

  /** Each known part keeps its name and price and loses exactly the quantities asked of it. */
  lemma {:induction false} ConsumeStock(parts: map<int, Part>, uses: seq<PartUse>, pid: int)
    requires pid in parts
    ensures Consume(parts, uses)[pid] == parts[pid].(stock := parts[pid].stock - SumQuantities(uses, pid))
    decreases |uses|
  {
    if uses != [] {
      ConsumeStock(parts, uses[..|uses| - 1], pid);
    }
  }

  /** Entries that do not name a part ask nothing of it. */
  lemma {:induction false} SumQuantitiesUnnamed(uses: seq<PartUse>, pid: int)
    requires !Names(uses, pid)
    ensures SumQuantities(uses, pid) == 0
    decreases |uses|
  {
    if uses != [] {
      var prefix := uses[..|uses| - 1];
      NamesSnoc(uses, pid);
      SumQuantitiesUnnamed(prefix, pid);
    }
  }

  /** A part no entry names is left exactly as it was. */
  lemma ConsumeUnnamed(parts: map<int, Part>, uses: seq<PartUse>, pid: int)
    requires pid in parts && !Names(uses, pid)
    ensures Consume(parts, uses)[pid] == parts[pid]
  {
    ConsumeStock(parts, uses, pid);
    SumQuantitiesUnnamed(uses, pid);
  }

  // ---------------------------------------------------------------- links

  /** A link for (sid, pid) is added exactly when pid is a known part that some entry names;
      entries naming unknown parts add nothing. */
  lemma {:induction false} NewLinksDomain(sid: int, parts: map<int, Part>, uses: seq<PartUse>, k: LinkKey)
    ensures k in NewLinks(sid, parts, uses) <==> k.serviceId == sid && k.partId in parts && Names(uses, k.partId)
    decreases |uses|
  {
    if uses != [] {
      var prefix := uses[..|uses| - 1];
      NewLinksDomain(sid, parts, prefix, k);
      NamesSnoc(uses, k.partId);
    }
  }

  /** Removing the last entry cannot create a repeat. */
  lemma RepeatsPrefix(parts: map<int, Part>, uses: seq<PartUse>)
    requires uses != [] && !RepeatsKnownPart(parts, uses)
    ensures !RepeatsKnownPart(parts, uses[..|uses| - 1])
  {
    var prefix := uses[..|uses| - 1];
    assert forall j :: 0 <= j < |prefix| ==> prefix[j] == uses[j];
  }

  /** Appending an entry creates a repeat exactly when it names a known part an earlier
      entry already named. */
  lemma RepeatsSnoc(parts: map<int, Part>, uses: seq<PartUse>, u: PartUse)
    ensures RepeatsKnownPart(parts, uses + [u]) <==>
            RepeatsKnownPart(parts, uses) || (u.partId in parts && Names(uses, u.partId))
  {
    var s := uses + [u];
    assert forall j :: 0 <= j < |uses| ==> s[j] == uses[j];
    assert s[|uses|] == u;
  }

  /** One step of the loop: how the three folds over the first i + 1 entries follow from
      those over the first i entries and entry i. */
  lemma StepFacts(sid: int, parts: map<int, Part>, uses: seq<PartUse>, i: int)
    requires 0 <= i < |uses|
    ensures var before, u := Consume(parts, uses[..i]), uses[i];
            Consume(parts, uses[..i + 1]) ==
              if u.partId in parts
              then before[u.partId := before[u.partId].(stock := before[u.partId].stock - u.quantity)]
              else before
    ensures var links, u := NewLinks(sid, parts, uses[..i]), uses[i];
            NewLinks(sid, parts, uses[..i + 1]) ==
              if u.partId in parts then links[LinkKey(sid, u.partId) := u.quantity] else links
    ensures RepeatsKnownPart(parts, uses[..i + 1]) <==>
            RepeatsKnownPart(parts, uses[..i]) ||
            (uses[i].partId in parts && LinkKey(sid, uses[i].partId) in NewLinks(sid, parts, uses[..i]))
  {
    assert uses[..i + 1][..i] == uses[..i];
    assert uses[..i + 1] == uses[..i] + [uses[i]];
    RepeatsSnoc(parts, uses[..i], uses[i]);
    NewLinksDomain(sid, parts, uses[..i], LinkKey(sid, uses[i].partId));
  }

  /** Without repeats, the link for a known named part holds the whole quantity asked of it. */
  lemma {:induction false} NewLinksQuantity(sid: int, parts: map<int, Part>, uses: seq<PartUse>, pid: int)
    requires !RepeatsKnownPart(parts, uses)
    requires LinkKey(sid, pid) in NewLinks(sid, parts, uses)
    ensures NewLinks(sid, parts, uses)[LinkKey(sid, pid)] == SumQuantities(uses, pid)
    decreases |uses|
  {
    var prefix := uses[..|uses| - 1];
    var u := uses[|uses| - 1];
    assert uses == prefix + [u];
    RepeatsPrefix(parts, uses);
    RepeatsSnoc(parts, prefix, u);
    if u.partId == pid {
      NewLinksDomain(sid, parts, prefix, LinkKey(sid, pid));
      SumQuantitiesUnnamed(prefix, pid);
    } else {
      NewLinksQuantity(sid, parts, prefix, pid);
    }
  }

  /** Without repeats, one link is added per entry that names a known part. */
  lemma {:induction false} NewLinksCount(sid: int, parts: map<int, Part>, uses: seq<PartUse>)
    requires !RepeatsKnownPart(parts, uses)
    ensures |NewLinks(sid, parts, uses)| == KnownCount(parts, uses)
    decreases |uses|
  {
    if uses != [] {
      var prefix := uses[..|uses| - 1];
      var u := uses[|uses| - 1];
      assert uses == prefix + [u];
      RepeatsPrefix(parts, uses);
      RepeatsSnoc(parts, prefix, u);
      NewLinksCount(sid, parts, prefix);
      if u.partId in parts {
        NewLinksDomain(sid, parts, prefix, LinkKey(sid, u.partId));
      }
    }
  }

  /** The recorded consumption matches the stock movement: without repeats, every known part
      with a new link lost exactly the link's quantity, and every known part without one kept
      its row unchanged. */
  lemma LinksMatchStock(sid: int, parts: map<int, Part>, uses: seq<PartUse>, pid: int)
    requires !RepeatsKnownPart(parts, uses) && pid in parts
    ensures var links, after := NewLinks(sid, parts, uses), Consume(parts, uses);
            (LinkKey(sid, pid) in links ==>
               after[pid] == parts[pid].(stock := parts[pid].stock - links[LinkKey(sid, pid)])) &&
            (LinkKey(sid, pid) !in links ==> after[pid] == parts[pid])
  {
    NewLinksDomain(sid, parts, uses, LinkKey(sid, pid));
    ConsumeStock(parts, uses, pid);
    if LinkKey(sid, pid) in NewLinks(sid, parts, uses) {
      NewLinksQuantity(sid, parts, uses, pid);
    } else {
      ConsumeUnnamed(parts, uses, pid);
    }
  }

  /** The example of a single oil change: a part with ten in stock, two used. */
  lemma OilChangeExample(sid: int, part: Part)
    requires part.stock == 10
    ensures Consume(map[5 := part], [PartUse(5, 2)])[5].stock == 8
    ensures NewLinks(sid, map[5 := part], [PartUse(5, 2)]) == map[LinkKey(sid, 5) := 2]
  {
    var uses := [PartUse(5, 2)];
    assert uses[..0] == [];
  }

  /** Skipping is not fatal: an unknown entry next to a known one still lets the known one
      through. */
  lemma MixedEntriesExample(sid: int, part: Part)
    ensures NewLinks(sid, map[5 := part], [PartUse(9, 4), PartUse(5, 2)]) == map[LinkKey(sid, 5) := 2]
    ensures Consume(map[5 := part], [PartUse(9, 4), PartUse(5, 2)])[5].stock == part.stock - 2
  {
    var uses := [PartUse(9, 4), PartUse(5, 2)];
    assert uses[..1] == [PartUse(9, 4)];
    assert uses[..1][..0] == [];
  }
}
