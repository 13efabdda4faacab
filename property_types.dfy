/**
 * The editable properties of a predictor type. An integer property holds the text the
 * user typed (a comma-separated list); `loadValuesFromUI` turns it into the list of
 * values to try: every piece is parsed, clamped into the property's range or replaced
 * by the default, repeated values are dropped, and the text is rewritten to the values
 * kept. A Boolean property offers "taken", "not taken" or both, never neither.
 */
module PropertyTypes {
  import opened Wrappers
  import opened Text
  import opened Sequences

  const INT32_MIN := -0x8000_0000
  const INT32_MAX := 0x7FFF_FFFF
  const UINT32_MAX := 0xFFFF_FFFF

  /** The two integer property types: `int` and `uint`. */
  datatype Width = Int32 | UInt32

  predicate InWidth(width: Width, v: int) {
    match width
    case Int32 => INT32_MIN <= v <= INT32_MAX
    case UInt32 => 0 <= v <= UINT32_MAX
  }

  /** `int.TryParse` / `uint.TryParse`: the integer syntax, then the range of the type. */
  function TryParse(width: Width, s: string): (r: Option<int>)
    ensures r.Some? ==> InWidth(width, r.value)
  {
    var p := ParseInteger(s);
    if p.Some? && InWidth(width, p.value) then p else None
  }

  /** Printed values of the type parse back, with or without the blank `", "` leaves. */
  lemma TryParsePrinted(width: Width, v: int)
    requires InWidth(width, v)
    ensures TryParse(width, IntText(v)) == Some(v)
    ensures TryParse(width, " " + IntText(v)) == Some(v)
  {
    ParsePrinted(v);
  }

  /** A minus sign in front of a positive number is not an unsigned integer. */
  lemma UnsignedRejectsNegative(n: nat)
    requires n > 0
    ensures TryParse(UInt32, "-" + NatText(n)) == None
    ensures TryParse(Int32, "-" + NatText(n)) == if n <= 0x8000_0000 then Some(-(n as int)) else None
  {
    var t := "-" + NatText(n);
    assert t == IntText(-(n as int));
    TrimUntrimmed(t);
    ParseIntText(-(n as int));
  }

  /** Above the maximum becomes the maximum; then below the minimum becomes the minimum. */
  function Clamp(v: int, lo: int, hi: int): (r: int)
    ensures lo <= hi ==> lo <= r <= hi
    ensures lo <= v <= hi ==> r == v
    ensures v > hi ==> r == (if hi < lo then lo else hi)
    ensures v < lo ==> r == lo
  {
    var upper := if v > hi then hi else v;
    if upper < lo then lo else upper
  }

  /** The value one comma piece stands for. */
  function PieceValue(width: Width, s: string, defaultValue: int, lo: int, hi: int): (r: int)
    ensures lo <= defaultValue <= hi ==> lo <= r <= hi
  {
    match TryParse(width, s)
    case Some(v) => Clamp(v, lo, hi)
    case None => defaultValue
  }

  function PieceValues(width: Width, pieces: seq<string>, defaultValue: int, lo: int, hi: int): seq<int> {
    seq(|pieces|, i requires 0 <= i < |pieces| => PieceValue(width, pieces[i], defaultValue, lo, hi))
  }

  /** The values `loadValuesFromUI` returns for the text `binding`. */
  function LoadedValues(width: Width, binding: string, defaultValue: int, lo: int, hi: int): seq<int> {
    Distinct(PieceValues(width, Split(binding, ','), defaultValue, lo, hi))
  }

  function Texts(values: seq<int>): (texts: seq<string>)
    ensures |texts| == |values|
    ensures forall i :: 0 <= i < |values| ==> texts[i] == IntText(values[i])
  {
    seq(|values|, i requires 0 <= i < |values| => IntText(values[i]))
  }

  /** The rewritten text: the kept values joined by `", "`. */
  function Corrected(values: seq<int>): string {
    Join(Texts(values), ", ")
  }

  /** Appending a value appends `", "` and its text, or just its text to an empty list. */
  lemma CorrectedAppend(values: seq<int>, v: int)
    ensures Corrected(values + [v]) == if |values| == 0 then IntText(v) else Corrected(values) + ", " + IntText(v)
    ensures Corrected(values + [v]) != ""
  {
    var texts := Texts(values + [v]);
    assert texts[..|values|] == Texts(values);
    assert texts[|values|] == IntText(v);
  }

  /**
   * The values are never empty (a split yields at least one piece), lie in the
   * property's range, and are free of repetitions; they are exactly the piece values.
   */
  lemma LoadedValuesShape(width: Width, binding: string, defaultValue: int, lo: int, hi: int)
    requires lo <= defaultValue <= hi
    ensures var values := LoadedValues(width, binding, defaultValue, lo, hi);
      |values| >= 1
      && (forall i :: 0 <= i < |values| ==> lo <= values[i] <= hi)
      && (forall i, j :: 0 <= i < j < |values| ==> values[i] != values[j])
      && (forall v :: v in values <==> v in PieceValues(width, Split(binding, ','), defaultValue, lo, hi))
  {
    var pieces := PieceValues(width, Split(binding, ','), defaultValue, lo, hi);
    var values := Distinct(pieces);
    DistinctIsDistinct(pieces);
    assert pieces[0] in values;
    forall i | 0 <= i < |values|
      ensures lo <= values[i] <= hi
    {
      assert values[i] in pieces;
    }
  }

  /** Reading the pieces of a rewritten text gives back the values it was written from. */
  lemma PieceValuesOfCorrected(width: Width, values: seq<int>, defaultValue: int, lo: int, hi: int)
    requires |values| >= 1
    requires forall i :: 0 <= i < |values| ==> lo <= values[i] <= hi && InWidth(width, values[i])
    ensures PieceValues(width, Split(Corrected(values), ','), defaultValue, lo, hi) == values
  {
    var texts := Texts(values);
    SplitJoined(texts);
    var pieces := Spaced(texts);
    assert Split(Corrected(values), ',') == pieces;
    var parsed := PieceValues(width, pieces, defaultValue, lo, hi);
    forall i | 0 <= i < |values|
      ensures parsed[i] == values[i]
    {
      var v := values[i];
      TryParsePrinted(width, v);
      assert pieces[i] == IntText(v) || pieces[i] == " " + IntText(v);
      assert TryParse(width, pieces[i]) == Some(v);
    }
  }

  /**
   * Loading is idempotent: the rewritten text loads to the same values and is
   * rewritten to itself.
   */
  lemma LoadIsIdempotent(width: Width, binding: string, defaultValue: int, lo: int, hi: int)
    requires lo <= defaultValue <= hi && InWidth(width, lo) && InWidth(width, hi)
    ensures var values := LoadedValues(width, binding, defaultValue, lo, hi);
      LoadedValues(width, Corrected(values), defaultValue, lo, hi) == values
  {
    var values := LoadedValues(width, binding, defaultValue, lo, hi);
    LoadedValuesShape(width, binding, defaultValue, lo, hi);
    PieceValuesOfCorrected(width, values, defaultValue, lo, hi);
    DistinctIsDistinct(values);
  }

  /** `PredictorInt32Property` (width `Int32`) and `PredictorUInt32Property` (width `UInt32`). */
  class PredictorIntegerProperty {
    const width: Width
    const propertyName: string
    const displayName: string
    const defaultValue: int
    const minimumValue: int
    const maximumValue: int
    var bindingString: string

    ghost predicate Valid() {
      minimumValue <= defaultValue <= maximumValue
      && InWidth(width, minimumValue) && InWidth(width, maximumValue)
    }

    constructor (width: Width, propertyName: string, displayName: string,
                 defaultValue: int, minimumValue: int, maximumValue: int)
      ensures this.width == width && this.propertyName == propertyName && this.displayName == displayName
      ensures this.defaultValue == defaultValue && this.minimumValue == minimumValue
      ensures this.maximumValue == maximumValue && bindingString == IntText(defaultValue)
    {
      this.width := width;
      this.propertyName := propertyName;
      this.displayName := displayName;
      this.defaultValue := defaultValue;
      this.minimumValue := minimumValue;
      this.maximumValue := maximumValue;
      bindingString := IntText(defaultValue);
    }

    /** The constructor: an `ArgumentException` unless the default lies in [min, max]. */
    static method Create(width: Width, propertyName: string, displayName: string,
                         defaultValue: int, minimumValue: int, maximumValue: int)
      returns (r: Result<PredictorIntegerProperty, string>)
      requires InWidth(width, defaultValue) && InWidth(width, minimumValue) && InWidth(width, maximumValue)
      ensures r.Success? <==> minimumValue <= defaultValue <= maximumValue
      ensures r.Success? ==>
        fresh(r.value) && r.value.Valid()
        && r.value.width == width && r.value.propertyName == propertyName
        && r.value.defaultValue == defaultValue && r.value.minimumValue == minimumValue
        && r.value.maximumValue == maximumValue && r.value.bindingString == IntText(defaultValue)
    {
      if defaultValue < minimumValue || defaultValue > maximumValue {
        return Failure("Error initializing property " + propertyName
                       + ". Default value must be between the minimum and maximum.");
      }
      var p := new PredictorIntegerProperty(width, propertyName, displayName, defaultValue, minimumValue, maximumValue);
      r := Success(p);
    }

    /**
     * `loadValuesFromUI`: the values of the comma pieces of the text, first occurrences
     * only, and the text rewritten to them.
     */
    method LoadValuesFromUI() returns (values: seq<int>)
      modifies this`bindingString
      ensures values == LoadedValues(width, old(bindingString), defaultValue, minimumValue, maximumValue)
      ensures bindingString == Corrected(values)
    {
      var corrected := "";
      values := [];
      var pieces := Split(bindingString, ',');
      var i := 0;
      while i < |pieces|
        invariant 0 <= i <= |pieces|
        invariant values == Distinct(PieceValues(width, pieces[..i], defaultValue, minimumValue, maximumValue))
        invariant corrected == Corrected(values)
        invariant corrected == "" <==> |values| == 0
      {
        var value: int;
        var parsed := TryParse(width, pieces[i]);
        if parsed.Some? {
          value := parsed.value;
          if value > maximumValue {
            value := maximumValue;
          }
          if value < minimumValue {
            value := minimumValue;
          }
        } else {
          value := defaultValue;
        }
        NextPiece(pieces, i, value);
        if value !in values {
          CorrectedAppend(values, value);
          if corrected != "" {
            corrected := corrected + ", ";
          }
          corrected := corrected + IntText(value);
          values := values + [value];
        }
        i := i + 1;
      }
      assert pieces[..i] == pieces;
      bindingString := corrected;
    }

    lemma NextPiece(pieces: seq<string>, i: nat, value: int)
      requires i < |pieces| && value == PieceValue(width, pieces[i], defaultValue, minimumValue, maximumValue)
      ensures var before := Distinct(PieceValues(width, pieces[..i], defaultValue, minimumValue, maximumValue));
        Distinct(PieceValues(width, pieces[..i + 1], defaultValue, minimumValue, maximumValue))
        == if value in before then before else before + [value]
    {
      var front := PieceValues(width, pieces[..i], defaultValue, minimumValue, maximumValue);
      var next := PieceValues(width, pieces[..i + 1], defaultValue, minimumValue, maximumValue);
      assert next == front + [value];
      assert next[..i] == front;
    }
  }

  /**
   * `PredictorBoolProperty`: whether "taken" and "not taken" are to be simulated.
   * Clearing one box while the other is clear ticks the other.
   */
  class PredictorBoolProperty {
    const propertyName: string
    const displayName: string
    const textTrue: string
    const textFalse: string
    var bindingTaken: bool
    var bindingNotTaken: bool

    /** At least one of the two boxes is ticked. */
    ghost predicate Valid()
      reads this
    {
      bindingTaken || bindingNotTaken
    }

    constructor (propertyName: string, displayName: string, textTrue: string, textFalse: string,
                 defaultIsTrue: bool)
      ensures Valid() && bindingTaken == defaultIsTrue && bindingNotTaken == !defaultIsTrue
      ensures this.propertyName == propertyName && this.displayName == displayName
      ensures this.textTrue == textTrue && this.textFalse == textFalse
    {
      this.propertyName := propertyName;
      this.displayName := displayName;
      bindingTaken := defaultIsTrue;
      bindingNotTaken := !defaultIsTrue;
      this.textTrue := textTrue;
      this.textFalse := textFalse;
    }

    /** The `BindingTaken` setter. */
    method SetBindingTaken(value: bool)
      modifies this
      ensures Valid() && bindingTaken == value
      ensures bindingNotTaken == (old(bindingNotTaken) || !value)
    {
      bindingTaken := value;
      if !bindingTaken && !bindingNotTaken {
        bindingNotTaken := true;
      }
    }

    /** The `BindingNotTaken` setter. */
    method SetBindingNotTaken(value: bool)
      modifies this
      ensures Valid() && bindingNotTaken == value
      ensures bindingTaken == (old(bindingTaken) || !value)
    {
      bindingNotTaken := value;
      if !bindingTaken && !bindingNotTaken {
        bindingTaken := true;
      }
    }

    /** `true` if "taken" is ticked, then `false` if "not taken" is ticked. */
    method LoadValuesFromUI() returns (values: seq<bool>)
      ensures (true in values <==> bindingTaken) && (false in values <==> bindingNotTaken)
      ensures forall i, j :: 0 <= i < j < |values| ==> values[i] != values[j]
      ensures |values| > 0 && bindingTaken ==> values[0]
      ensures Valid() ==> |values| >= 1
    {
      values := [];
      if bindingTaken {
        values := values + [true];
      }
      if bindingNotTaken {
        values := values + [false];
      }
    }
  }
}
