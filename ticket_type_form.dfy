/**
 * The form that creates or edits a ticket type: its fields, the list of perks
 * being edited, the validation that fills a dictionary of field errors, and
 * what is handed on when the form is submitted.
 */
module TicketTypeForm {
  import opened Options
  import opened JsStrings
  import opened JsNumbers
  import opened Seqs

  datatype TicketTypeData = TicketTypeData(name: string, price: string, maxCapacity: string, description: string, perks: seq<string>)

  /** The inputs `handleChange` serves, named by their `name` attribute. */
  datatype Field = Name | Price | MaxCapacity | Description

  const EmptyTicketType := TicketTypeData("", "", "", "", [""])

  function WithField(t: TicketTypeData, f: Field, value: string): TicketTypeData {
    match f
    case Name => t.(name := value)
    case Price => t.(price := value)
    case MaxCapacity => t.(maxCapacity := value)
    case Description => t.(description := value)
  }

  /** A price is refused when `Number` gives `NaN` or a negative value. */
  predicate BadPrice(price: string) {
    ToNumber(price).IsNaN() || ToNumber(price).IsNegative()
  }

  /** A capacity is refused unless `Number` gives a positive integer. */
  predicate BadCapacity(cap: string) {
    ToNumber(cap).IsNaN() || !ToNumber(cap).IsInteger() || ToNumber(cap).IsNonPositive()
  }

  /** `validateForm`'s error dictionary: one entry per failing field, each with its message. */
  function Validate(t: TicketTypeData): (errors: map<Field, string>)
    ensures Name in errors <==> IsBlank(t.name)
    ensures Price in errors <==> IsBlank(t.price) || BadPrice(t.price)
    ensures MaxCapacity in errors <==> IsBlank(t.maxCapacity) || BadCapacity(t.maxCapacity)
    ensures forall k | k in errors :: k != Description
    ensures Name in errors ==> errors[Name] == "Ticket type name is required"
    ensures Price in errors ==> errors[Price] == if IsBlank(t.price) then "Price is required" else "Price must be a valid number"
    ensures MaxCapacity in errors ==>
      errors[MaxCapacity] == if IsBlank(t.maxCapacity) then "Maximum capacity is required" else "Maximum capacity must be a positive integer"
  {
    var e1: map<Field, string> := if IsBlank(t.name) then map[Name := "Ticket type name is required"] else map[];
    var e2 := if IsBlank(t.price) then e1[Price := "Price is required"]
      else if BadPrice(t.price) then e1[Price := "Price must be a valid number"]
      else e1;
    if IsBlank(t.maxCapacity) then e2[MaxCapacity := "Maximum capacity is required"]
    else if BadCapacity(t.maxCapacity) then e2[MaxCapacity := "Maximum capacity must be a positive integer"]
    else e2
  }

  /** The form passes exactly when none of its three checks fails. */
  lemma ValidIff(t: TicketTypeData)
    ensures |Validate(t)| == 0 <==>
      !IsBlank(t.name) && !IsBlank(t.price) && !BadPrice(t.price) && !IsBlank(t.maxCapacity) && !BadCapacity(t.maxCapacity)
  {
    var e := Validate(t);
    if |e| == 0 {
      assert e == map[];
    } else {
      var k :| k in e;
    }
  }

  /** A run of digits is a price `Number` accepts. */
  lemma WholePriceGood(price: string)
    requires price != [] && AllDigits(price, 10)
    ensures !IsBlank(price) && !BadPrice(price)
  {
    assert IsDigit(price[0], 10);
    ToNumberOfDigits(price);
  }

  /** A run of digits that are not all zero is a capacity `Number` accepts. */
  lemma WholeCapacityGood(cap: string)
    requires cap != [] && AllDigits(cap, 10)
    requires exists i | 0 <= i < |cap| :: cap[i] != '0'
    ensures !IsBlank(cap) && !BadCapacity(cap)
  {
    assert IsDigit(cap[0], 10);
    ToNumberOfDigits(cap);
    ValuePositiveIff(cap, 10);
  }

  /** A named ticket type with a whole price and a whole, nonzero capacity passes. */
  lemma WholeNumbersPass(t: TicketTypeData)
    requires !IsBlank(t.name)
    requires t.price != [] && AllDigits(t.price, 10)
    requires t.maxCapacity != [] && AllDigits(t.maxCapacity, 10)
    requires exists i | 0 <= i < |t.maxCapacity| :: t.maxCapacity[i] != '0'
    ensures Validate(t) == map[]
  {
    WholePriceGood(t.price);
    WholeCapacityGood(t.maxCapacity);
    ValidIff(t);
  }

  /** A capacity with a fractional part, such as `2.5`, is refused as not a positive integer. */
  lemma FractionalCapacityRefused(t: TicketTypeData, whole: string, fraction: string)
    requires AllDigits(whole, 10) && AllDigits(fraction, 10) && whole != [] && fraction != []
    requires fraction[|fraction| - 1] != '0'
    requires t.maxCapacity == whole + "." + fraction
    ensures MaxCapacity in Validate(t)
    ensures Validate(t)[MaxCapacity] == "Maximum capacity must be a positive integer"
  {
    FractionNotInteger(whole, fraction);
    assert !IsSpace(t.maxCapacity[0]) by {
      assert t.maxCapacity[0] == whole[0] && IsDigit(whole[0], 10);
    }
  }

  /** A negative whole price is refused as not a valid number. */
  lemma NegativePriceRefused(t: TicketTypeData, ds: string)
    requires ds != [] && AllDigits(ds, 10) && exists i | 0 <= i < |ds| :: ds[i] != '0'
    requires t.price == "-" + ds
    ensures Price in Validate(t) && Validate(t)[Price] == "Price must be a valid number"
  {
    ToNumberOfNegative(ds);
    assert !IsSpace(t.price[0]);
  }

  predicate NonBlank(p: string) {
    !IsBlank(p)
  }

  /** The perks kept by validation: the non-blank ones, or a single empty one when none is left. */
  function NormalizePerks(perks: seq<string>): (r: seq<string>)
    ensures r != []
    ensures r == [""] || forall p | p in r :: NonBlank(p)
    ensures forall p | p in r && NonBlank(p) :: p in perks
  {
    var kept := Filter(perks, NonBlank);
    if |kept| > 0 then kept else [""]
  }

  /** Normalizing twice is normalizing once. */
  lemma NormalizePerksIdempotent(perks: seq<string>)
    ensures NormalizePerks(NormalizePerks(perks)) == NormalizePerks(perks)
  {
    var kept := Filter(perks, NonBlank);
    if |kept| > 0 {
      FilterFilter(perks, NonBlank, NonBlank, NonBlank);
      FilterAll(kept, NonBlank);
    } else {
      assert !NonBlank("");
      assert Filter([""], NonBlank) == [];
    }
  }

  /** The perks handed on at submit are the non-blank ones of the form, whether or not validation has normalized them. */
  lemma SavedPerksAgree(perks: seq<string>)
    ensures Filter(NormalizePerks(perks), NonBlank) == Filter(perks, NonBlank)
    ensures forall p | p in Filter(perks, NonBlank) :: NonBlank(p)
  {
    var kept := Filter(perks, NonBlank);
    if |kept| > 0 {
      FilterAll(kept, NonBlank);
    } else {
      assert !NonBlank("");
      assert Filter([""], NonBlank) == [];
    }
  }

  class TicketTypeEditor {
    var ticketType: TicketTypeData
    var errors: map<Field, string>
    /** Whether the form was opened on an existing ticket type. */
    const editing: bool

    constructor(initial: Option<TicketTypeData>)
      ensures ticketType == (if initial.Some? then initial.value else EmptyTicketType)
      ensures errors == map[] && editing == initial.Some?
    {
      ticketType := if initial.Some? then initial.value else EmptyTicketType;
      errors := map[];
      editing := initial.Some?;
    }

    /** Editing one input: that field takes the value and only that field's message is cleared. */
    method HandleChange(f: Field, value: string)
      modifies this
      ensures ticketType == WithField(old(ticketType), f, value)
      ensures forall k | k != f :: (k in errors <==> k in old(errors)) && (k in errors ==> errors[k] == old(errors)[k])
      ensures f in errors <==> f in old(errors)
      ensures f in errors ==> errors[f] == ""
    {
      ticketType := WithField(ticketType, f, value);
      if f in errors && errors[f] != "" {
        errors := errors[f := ""];
      }
    }

    /** Editing perk `index` replaces that perk only. */
    method HandlePerkChange(index: nat, value: string)
      modifies this
      requires index < |ticketType.perks|
      ensures ticketType == old(ticketType).(perks := old(ticketType).perks[index := value])
      ensures errors == old(errors)
    {
      ticketType := ticketType.(perks := ticketType.perks[index := value]);
    }

    /** The add-perk button appends an empty perk. */
    method AddPerk()
      modifies this
      ensures ticketType == old(ticketType).(perks := old(ticketType).perks + [""])
      ensures errors == old(errors)
    {
      ticketType := ticketType.(perks := ticketType.perks + [""]);
    }

    /** The remove button of perk `index`, disabled when it is the only perk. */
    method RemovePerk(index: nat)
      modifies this
      requires index < |ticketType.perks|
      ensures |old(ticketType).perks| == 1 ==> ticketType == old(ticketType)
      ensures |old(ticketType).perks| > 1 ==> ticketType == old(ticketType).(perks := RemoveAt(old(ticketType).perks, index))
      ensures |ticketType.perks| >= 1
      ensures errors == old(errors)
    {
      if !(|ticketType.perks| == 1 && index == 0) {
        ticketType := ticketType.(perks := RemoveAt(ticketType.perks, index));
      }
    }

    /**
     * Submitting: validation records its errors and normalizes the perks; when
     * it passes, the ticket type is handed on with its blank perks dropped.
     */
    method Submit() returns (saved: Option<TicketTypeData>)
      modifies this
      ensures errors == Validate(old(ticketType))
      ensures ticketType == old(ticketType).(perks := NormalizePerks(old(ticketType).perks))
      ensures saved.Some? <==> |Validate(old(ticketType))| == 0
      ensures saved.Some? ==> saved.value == old(ticketType).(perks := Filter(old(ticketType).perks, NonBlank))
      ensures saved.Some? ==> forall p | p in saved.value.perks :: NonBlank(p)
    {
      var snapshot := ticketType;
      var newErrors := Validate(snapshot);
      ticketType := snapshot.(perks := NormalizePerks(snapshot.perks));
      errors := newErrors;
      if |newErrors| == 0 {
        saved := Some(snapshot.(perks := Filter(snapshot.perks, NonBlank)));
      } else {
        saved := None;
      }
    }
  }
}
