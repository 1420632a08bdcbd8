/**
 * The ticket types table of an event: a selection of type ids driven by row
 * and header checkboxes, bulk deletion of the selection, and the remaining
 * stock and perk summary shown in each row.
 */
module TicketTypesList {
  import opened Options
  import opened Seqs

  /** A ticket type row; `sold` and `perks` may be missing. */
  datatype TicketTypeRow = TicketTypeRow(id: string, name: string, price: string, maxCapacity: int, sold: Option<int>, perks: Option<seq<string>>)

  /** What the perks cell shows. */
  datatype PerkView = NoPerks | Perks(shown: seq<string>, more: nat)

  /** `type.sold || 0`: a missing or zero count reads as 0. */
  function SoldCount(t: TicketTypeRow): int {
    if t.sold.Some? then t.sold.value else 0
  }

  /** `type.maxCapacity - (type.sold || 0)`. */
  function Available(t: TicketTypeRow): (r: int)
    ensures t.sold.None? ==> r == t.maxCapacity
    ensures t.sold.Some? ==> r + t.sold.value == t.maxCapacity
  {
    t.maxCapacity - SoldCount(t)
  }

  /** The availability badge is green exactly when tickets remain. */
  predicate InStock(t: TicketTypeRow) {
    Available(t) > 0
  }

  /** Selling a ticket takes one from what is available, and a type with nothing sold is in stock when its capacity is positive. */
  lemma AvailableCounts(t: TicketTypeRow)
    ensures InStock(t) <==> SoldCount(t) < t.maxCapacity
    ensures Available(t.(sold := Some(SoldCount(t) + 1))) == Available(t) - 1
    ensures t.sold.None? ==> (InStock(t) <==> t.maxCapacity > 0)
  {
  }

  /** The perks cell: "No perks" for none, else the first two perks and a count of the rest. */
  function PerkSummary(perks: Option<seq<string>>): (v: PerkView)
    ensures v.NoPerks? <==> perks.None? || perks.value == []
    ensures v.Perks? ==> |v.shown| == (if |perks.value| < 2 then |perks.value| else 2)
    ensures v.Perks? ==> v.shown + perks.value[|v.shown|..] == perks.value
    ensures v.Perks? ==> |v.shown| + v.more == |perks.value|
  {
    if perks.None? || perks.value == [] then NoPerks
    else
      var n := |perks.value|;
      Perks(perks.value[..if n < 2 then n else 2], if n > 2 then n - 2 else 0)
  }

  /** "+n more" appears exactly when there are more than two perks. */
  lemma MoreShownIff(perks: seq<string>)
    requires perks != []
    ensures PerkSummary(Some(perks)).more > 0 <==> |perks| > 2
    ensures PerkSummary(Some(perks)).more > 0 ==> PerkSummary(Some(perks)).more == |perks| - 2
  {
  }

  /** `ticketTypes.map(type => type.id)`. */
  function TypeIds(types: seq<TicketTypeRow>): (r: seq<string>)
    ensures |r| == |types| && forall i | 0 <= i < |r| :: r[i] == types[i].id
  {
    seq(|types|, i requires 0 <= i < |types| => types[i].id)
  }

  /**
   * The table's own state, the selection, beside the `ticketTypes` prop. The
   * parent replaces the prop, for instance after a deletion; the selection is
   * not told, so it can keep ids that are no longer listed.
   */
  class TypeSelection {
    var selectedTypes: seq<string>
    var ticketTypes: seq<TicketTypeRow>

    /** The listed ids are distinct and the selection names each id at most once. */
    ghost predicate Valid()
      reads this
    {
      NoDuplicates(TypeIds(ticketTypes)) && NoDuplicates(selectedTypes)
    }

    /** Every selected id is still listed. */
    predicate SelectionListed()
      reads this
    {
      forall id | id in selectedTypes :: id in TypeIds(ticketTypes)
    }

    /** Type ids are the rows' keys, which are distinct. */
    constructor(types: seq<TicketTypeRow>)
      requires NoDuplicates(TypeIds(types))
      ensures Valid() && SelectionListed()
      ensures ticketTypes == types && selectedTypes == []
    {
      ticketTypes := types;
      selectedTypes := [];
    }

    /** The parent renders the table with a new list; the selection is kept as it is. */
    method SetTicketTypes(types: seq<TicketTypeRow>)
      modifies this
      requires Valid() && NoDuplicates(TypeIds(types))
      ensures Valid()
      ensures ticketTypes == types && selectedTypes == old(selectedTypes)
    {
      ticketTypes := types;
    }

    /** The header checkbox is ticked when the selection is as long as the list. */
    predicate HeaderChecked()
      reads this
    {
      |selectedTypes| == |ticketTypes|
    }

    /** While every selected id is listed, the header is ticked exactly when every type is selected. */
    lemma HeaderCheckedIff()
      requires Valid() && SelectionListed()
      ensures HeaderChecked() <==> forall t | t in ticketTypes :: t.id in selectedTypes
    {
      SelectionCompleteIff(selectedTypes, TypeIds(ticketTypes));
      if forall id | id in TypeIds(ticketTypes) :: id in selectedTypes {
        forall t | t in ticketTypes
          ensures t.id in selectedTypes
        {
          var i :| 0 <= i < |ticketTypes| && ticketTypes[i] == t;
          assert TypeIds(ticketTypes)[i] == t.id;
        }
      }
      if forall t | t in ticketTypes :: t.id in selectedTypes {
        forall id | id in TypeIds(ticketTypes)
          ensures id in selectedTypes
        {
          var i :| 0 <= i < |ticketTypes| && TypeIds(ticketTypes)[i] == id;
          assert ticketTypes[i] in ticketTypes;
        }
      }
    }

    /**
     * Once a selected id is no longer listed, a ticked header does not mean
     * every type is selected: some listed type is left out.
     */
    lemma HeaderCheckedWithStaleId(stale: string)
      requires Valid() && HeaderChecked()
      requires stale in selectedTypes && stale !in TypeIds(ticketTypes)
      ensures exists t | t in ticketTypes :: t.id !in selectedTypes
    {
      EqualLengthMissesOne(selectedTypes, TypeIds(ticketTypes), stale);
      var id :| id in TypeIds(ticketTypes) && id !in selectedTypes;
      var i :| 0 <= i < |ticketTypes| && TypeIds(ticketTypes)[i] == id;
      assert ticketTypes[i] in ticketTypes;
    }

    /** Ticking the header selects every type in list order; unticking clears the selection. */
    method SelectAll(checked: bool)
      modifies this
      requires Valid()
      ensures Valid()
      ensures selectedTypes == (if checked then TypeIds(ticketTypes) else [])
      ensures checked ==> HeaderChecked()
      ensures SelectionListed()
    {
      selectedTypes := if checked then TypeIds(ticketTypes) else [];
    }

    /** A row checkbox toggles its type's id. */
    method Select(id: string)
      modifies this
      requires Valid() && id in TypeIds(ticketTypes)
      ensures Valid()
      ensures selectedTypes == Toggle(old(selectedTypes), id)
      ensures id in selectedTypes <==> id !in old(selectedTypes)
      ensures SelectionListed() <==> old(SelectionListed())
    {
      ToggleNoDuplicates(selectedTypes, id);
      selectedTypes := Toggle(selectedTypes, id);
    }

    /** Confirmed bulk deletion reports each selected id once, in selection order, then clears the selection. */
    method DeleteSelected(confirmed: bool) returns (deleted: seq<string>)
      modifies this
      requires Valid()
      ensures Valid()
      ensures confirmed ==> deleted == old(selectedTypes) && selectedTypes == []
      ensures !confirmed ==> deleted == [] && selectedTypes == old(selectedTypes)
      ensures NoDuplicates(deleted)
    {
      deleted := [];
      if confirmed {
        var i := 0;
        while i < |selectedTypes|
          invariant 0 <= i <= |selectedTypes|
          invariant deleted == selectedTypes[..i]
        {
          deleted := deleted + [selectedTypes[i]];
          i := i + 1;
        }
        assert selectedTypes[..|selectedTypes|] == selectedTypes;
        selectedTypes := [];
      }
    }

    /**
     * A row's delete button: after a confirmation the row's id is handed over.
     * The selection is left as it is, so a selected type deleted this way stays
     * selected once the parent drops it from the list.
     */
    method RowDelete(id: string, confirmed: bool) returns (deleted: Option<string>)
      requires id in TypeIds(ticketTypes)
      ensures deleted == (if confirmed then Some(id) else None)
    {
      deleted := if confirmed then Some(id) else None;
    }

    /**
     * Types a and b, a selected, a deleted through its row and dropped by the
     * parent: the header is ticked though b is not selected, and "Delete
     * Selected" would hand a over a second time.
     */
    static method StaleSelectionExample() returns (headerTicked: bool, bSelected: bool, bulk: seq<string>)
      ensures headerTicked && !bSelected && bulk == ["a"]
    {
      var a := TicketTypeRow("a", "Standard", "10", 100, None, None);
      var b := TicketTypeRow("b", "VIP", "50", 20, None, None);
      assert TypeIds([a, b]) == ["a", "b"] && TypeIds([b]) == ["b"];
      var table := new TypeSelection([a, b]);
      table.Select("a");
      var deleted := table.RowDelete("a", true);
      table.SetTicketTypes([b]);
      headerTicked := table.HeaderChecked();
      bSelected := "b" in table.selectedTypes;
      bulk := table.DeleteSelected(true);
    }
  }
}
