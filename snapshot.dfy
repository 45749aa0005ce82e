/**
 * The diffable data source's snapshot: sections, each holding an ordered list of
 * item identities, built by appending sections and then items. The list has one
 * section (`All`) and every row of it is editable.
 */
module Snapshots {
  import opened Wrappers
  import opened RestaurantQuery

  datatype Section = All

  datatype SectionItems = SectionItems(section: Section, items: seq<Id>)

  datatype Snapshot = Snapshot(sections: seq<SectionItems>)

  /** A freshly created snapshot: no sections, no items. */
  const EmptySnapshot := Snapshot([])

  function SectionIdentifiers(sections: seq<SectionItems>): (r: seq<Section>)
    ensures |r| == |sections|
  {
    if sections == [] then [] else [sections[0].section] + SectionIdentifiers(sections[1..])
  }

  /** Every item identity of the snapshot, section by section, in order. */
  function ItemIdentifiers(sections: seq<SectionItems>): seq<Id>
  {
    if sections == [] then [] else sections[0].items + ItemIdentifiers(sections[1..])
  }

  /** `appendSections`: new, initially empty sections at the end (each identifier may appear once). */
  function AppendSections(s: Snapshot, secs: seq<Section>): (r: Snapshot)
    requires forall sec :: sec in secs ==> sec !in SectionIdentifiers(s.sections)
    requires forall i, j :: 0 <= i < j < |secs| ==> secs[i] != secs[j]
    ensures |r.sections| == |s.sections| + |secs|
    ensures r.sections[..|s.sections|] == s.sections
    ensures forall i :: 0 <= i < |secs| ==> r.sections[|s.sections| + i] == SectionItems(secs[i], [])
    decreases |secs|
  {
    if secs == [] then s
    else
      var grown := Snapshot(s.sections + [SectionItems(secs[0], [])]);
      SectionIdentifiersAppend(s.sections, SectionItems(secs[0], []));
      AppendSections(grown, secs[1..])
  }

  lemma {:induction false} SectionIdentifiersAppend(sections: seq<SectionItems>, last: SectionItems)
    ensures SectionIdentifiers(sections + [last]) == SectionIdentifiers(sections) + [last.section]
  {
    if sections != [] {
      SectionIdentifiersAppend(sections[1..], last);
      assert (sections + [last])[1..] == sections[1..] + [last];
    }
  }

  function AppendToSection(sections: seq<SectionItems>, ids: seq<Id>, to: Section): (r: seq<SectionItems>)
    ensures |r| == |sections|
    ensures forall i :: 0 <= i < |r| ==> r[i].section == sections[i].section
    ensures forall i :: 0 <= i < |r| ==>
      r[i].items == if sections[i].section == to then sections[i].items + ids else sections[i].items
  {
    if sections == [] then []
    else
      var head := sections[0];
      [if head.section == to then SectionItems(to, head.items + ids) else head]
        + AppendToSection(sections[1..], ids, to)
  }

  /** `appendItems(_:toSection:)`: the section must exist and the identities must be new to the snapshot. */
  function AppendItems(s: Snapshot, ids: seq<Id>, to: Section): Snapshot
    requires to in SectionIdentifiers(s.sections)
    requires NoDuplicates(ItemIdentifiers(s.sections) + ids)
  {
    Snapshot(AppendToSection(s.sections, ids, to))
  }

  /** A snapshot of one section `All` whose items are the given rows, in the given order. */
  function SingleSection(rows: seq<Id>): Snapshot {
    Snapshot([SectionItems(All, rows)])
  }

  /**
   * What `updateSnapshot` builds: appending the section `All` to an empty snapshot
   * and then the rows to it gives the single-section snapshot of the rows, and its
   * items are exactly the rows.
   */
  lemma BuildSteps(rows: seq<Id>)
    requires NoDuplicates(rows)
    ensures AppendSections(EmptySnapshot, [All]).sections == [SectionItems(All, [])]
    ensures AppendItems(AppendSections(EmptySnapshot, [All]), rows, All) == SingleSection(rows)
    ensures ItemIdentifiers(SingleSection(rows).sections) == rows
  {
    var withSection := AppendSections(EmptySnapshot, [All]);
    assert withSection.sections == [SectionItems(All, [])];
    assert ItemIdentifiers(withSection.sections) + rows == rows;
    assert AppendToSection(withSection.sections, rows, All)[0] == SectionItems(All, rows);
  }

  /** `itemIdentifier(for:)` for a row of the first (the only) section. */
  function ItemIdentifier(s: Snapshot, row: nat): Option<Id> {
    if |s.sections| > 0 && row < |s.sections[0].items| then Some(s.sections[0].items[row]) else None
  }

  /** A built snapshot holds exactly the given rows: row `k` shows `rows[k]`, and there is nothing past the end. */
  lemma BuildItemIdentifier(rows: seq<Id>, row: nat)
    ensures ItemIdentifier(SingleSection(rows), row) == if row < |rows| then Some(rows[row]) else None
  {
  }

  /** The empty snapshot has no items either. */
  lemma EmptySnapshotHasNoItems()
    ensures ItemIdentifiers(EmptySnapshot.sections) == []
  {
  }
}
