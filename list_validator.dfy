/**
 * The settings `ListValidator`: a value is valid when the whole entry passes
 * the subclass's entry check and every comma-separated item passes its item
 * check. The two checks are abstract in the source, so they are fields of the
 * validator here; the split regex is stored but never used. A nullable
 * `String` argument is an `Option<string>`.
 */
module ListValidation {
  import JavaSplit
  import opened Optional

  /** How a call to `validate` ends: it returns a boolean, or `value.split` throws. */
  datatype Outcome = Returns(valid: bool) | ThrowsNullPointerException

  /** The outcome of a call together with the items handed to `isItemValid`, in call order. */
  datatype Validation = Validation(outcome: Outcome, consulted: seq<string>)

  /** The item loop: checks items in order and stops at the first invalid one. */
  function CheckItems(items: seq<string>, isItemValid: string -> bool): (v: Validation)
    ensures v.outcome == Returns(forall i :: 0 <= i < |items| ==> isItemValid(items[i]))
    ensures |v.consulted| <= |items| && v.consulted == items[..|v.consulted|]
    ensures v.outcome == Returns(true) ==> v.consulted == items
    ensures v.outcome == Returns(false) ==>
      && |v.consulted| > 0
      && !isItemValid(v.consulted[|v.consulted| - 1])
      && forall j :: 0 <= j < |v.consulted| - 1 ==> isItemValid(v.consulted[j])
    decreases |items|
  {
    if items == [] then Validation(Returns(true), [])
    else if !isItemValid(items[0]) then Validation(Returns(false), [items[0]])
    else
      var r := CheckItems(items[1..], isItemValid);
      Validation(r.outcome, [items[0]] + r.consulted)
  }

  datatype ListValidator = ListValidator(
    listSplitRegex: string,
    isEntryValid: Option<string> -> bool,
    isItemValid: string -> bool)
  {
    /** `validate(value)`: the entry check first, then the items of `value.split(",")`. */
    function Validate(value: Option<string>): (v: Validation)
      ensures !isEntryValid(value) ==> v == Validation(Returns(false), [])
      ensures isEntryValid(value) && value.None? ==> v == Validation(ThrowsNullPointerException, [])
      ensures isEntryValid(value) && value.Some? ==>
        v.outcome == Returns(forall i :: 0 <= i < |JavaSplit.Split(value.value)| ==>
                               isItemValid(JavaSplit.Split(value.value)[i]))
    {
      if !isEntryValid(value) then Validation(Returns(false), [])
      else match value
        case None => Validation(ThrowsNullPointerException, [])
        case Some(s) => CheckItems(JavaSplit.Split(s), isItemValid)
    }
  }

  /** `validate` returns true exactly when the entry is valid and every item is. */
  lemma ValidateTrueIff(lv: ListValidator, s: string)
    ensures lv.Validate(Some(s)).outcome == Returns(true) <==>
      && lv.isEntryValid(Some(s))
      && forall item :: item in JavaSplit.Split(s) ==> lv.isItemValid(item)
  {
    var items := JavaSplit.Split(s);
    if lv.isEntryValid(Some(s)) {
      assert (forall i :: 0 <= i < |items| ==> lv.isItemValid(items[i]))
         <==> (forall item :: item in items ==> lv.isItemValid(item));
    }
  }

  /**
   * Items are consulted in split order: the consulted items are a prefix of
   * the split; on true they are all of it; on false the last one consulted is
   * the first invalid item.
   */
  lemma ValidateConsultsInOrder(lv: ListValidator, s: string)
    requires lv.isEntryValid(Some(s))
    ensures var v := lv.Validate(Some(s)); var items := JavaSplit.Split(s);
      && v.consulted == items[..|v.consulted|]
      && (v.outcome == Returns(true) ==> v.consulted == items)
      && (v.outcome == Returns(false) ==>
            var k := |v.consulted| - 1;
            && 0 <= k < |items|
            && !lv.isItemValid(items[k])
            && forall j :: 0 <= j < k ==> lv.isItemValid(items[j]))
  {
    var v := lv.Validate(Some(s));
    var items := JavaSplit.Split(s);
    if v.outcome == Returns(false) {
      var k := |v.consulted| - 1;
      forall j | 0 <= j < k ensures lv.isItemValid(items[j]) {
        assert items[j] == v.consulted[j];
      }
    }
  }

  /** The stored split regex plays no part in `validate`. */
  lemma ValidateIgnoresRegex(regex1: string, regex2: string,
                             isEntryValid: Option<string> -> bool, isItemValid: string -> bool,
                             value: Option<string>)
    ensures ListValidator(regex1, isEntryValid, isItemValid).Validate(value)
         == ListValidator(regex2, isEntryValid, isItemValid).Validate(value)
  {
  }

  /** With an item check that accepts everything, `validate` is the entry check. */
  lemma AllItemsValidMeansEntryCheck(lv: ListValidator, s: string)
    requires forall item :: lv.isItemValid(item)
    ensures lv.Validate(Some(s)).outcome == Returns(lv.isEntryValid(Some(s)))
  {
  }

  /** The separator is the literal comma, whatever regex the validator holds. */
  lemma ValidateSplitsOnLiteralComma()
    ensures var lv := ListValidator("\\|", _ => true, item => item != "");
      && lv.Validate(Some("a|b")) == Validation(Returns(true), ["a|b"])
      && lv.Validate(Some("a,,")).outcome == Returns(true)
      && lv.Validate(Some(",a")) == Validation(Returns(false), [""])
  {
    JavaSplit.SplitExamplesTrailing();
    JavaSplit.SplitExamplesLeading();
    assert ',' !in "a|b";
  }
}
