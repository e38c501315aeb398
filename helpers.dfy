/**
  The scroll "load more" helpers: numeric coercion with a fallback, the
  load-threshold test, and the axis-narrowed read of a scrollbar's state.
  All three are total functions of their arguments; none of them changes the
  values it is given.
 */
module Helpers {
  import opened Wrappers
  import opened JsValues
  import opened LodashGet

  // ---------------------------------------------------------------------
  // checkNumber(value = 0, defValue = 0)
  // ---------------------------------------------------------------------

  /**
    Coerces `value` with unary `+`; a NaN outcome is replaced by `defValue`,
    which is returned as given (it is not itself coerced).
   */
  function CheckNumber(value: JsVal, defValue: JsVal): (r: JsVal)
    ensures r.Num? || r == OrDefault(defValue, Num(0.0))
  {
    var v := OrDefault(value, Num(0.0));
    var d := OrDefault(defValue, Num(0.0));
    match ToNumber(v)
    case None => d
    case Some(x) => Num(x)
  }

  /** When coercion yields a number, that number is the result. */
  lemma CheckNumberCoerced(value: JsVal, defValue: JsVal, x: real)
    requires ToNumber(OrDefault(value, Num(0.0))) == Some(x)
    ensures CheckNumber(value, defValue) == Num(x)
  {
  }

  /** When coercion yields NaN, the result is exactly the fallback. */
  lemma CheckNumberFallsBack(value: JsVal, defValue: JsVal)
    requires ToNumber(OrDefault(value, Num(0.0))) == None
    ensures CheckNumber(value, defValue) == OrDefault(defValue, Num(0.0))
  {
  }

  /**
    The result is NaN only if the fallback is; with a numeric fallback (or
    none) the result is always a number.
   */
  lemma CheckNumberNeverNaN(value: JsVal, defValue: JsVal)
    ensures OrDefault(defValue, Num(0.0)) != NaN ==> CheckNumber(value, defValue) != NaN
    ensures OrDefault(defValue, Num(0.0)).Num? ==> CheckNumber(value, defValue).Num?
  {
  }

  /** A number that is not NaN passes through unchanged, whatever the fallback. */
  lemma CheckNumberOfNumber(n: real, defValue: JsVal)
    ensures CheckNumber(Num(n), defValue) == Num(n)
  {
  }

  /** Coercing a numeric result again changes nothing. */
  lemma CheckNumberIdempotent(value: JsVal, defValue: JsVal, defValue2: JsVal)
    requires CheckNumber(value, defValue).Num?
    ensures CheckNumber(CheckNumber(value, defValue), defValue2) == CheckNumber(value, defValue)
  {
  }

  /**
    An omitted (`undefined`) value becomes 0 before coercion, so the fallback
    is never used for it; `null` also coerces to 0.
   */
  lemma CheckNumberOfUndefinedOrNull(defValue: JsVal)
    ensures CheckNumber(Undefined, defValue) == Num(0.0)
    ensures CheckNumber(Null, defValue) == Num(0.0)
  {
  }

  /** Decimal strings coerce to the numbers they spell. */
  lemma CheckNumberOfIntegerText(n: int, defValue: JsVal)
    ensures CheckNumber(Str(IntToString(n)), defValue) == Num(n as real)
  {
    StringToNumberOfIntToString(n);
  }

  lemma CheckNumberExamples()
    ensures CheckNumber(Undefined, Undefined) == Num(0.0)
    ensures CheckNumber(Str("abc"), Num(5.0)) == Num(5.0)
    ensures CheckNumber(Str("3.5"), Undefined) == Num(3.5)
    ensures CheckNumber(Str("abc"), Str("none")) == Str("none")
    ensures CheckNumber(NaN, NaN) == NaN
  {
    StringToNumberEdgeCases();
    StringToNumberOfDecimalExample();
  }

  // ---------------------------------------------------------------------
  // checkLoadCapability(limitY = 0, offsetY = 0, loadThreshold = 0)
  // ---------------------------------------------------------------------

  /**
    The number `checkNumber` makes of an argument when no fallback is given:
    its coercion, or 0 when that is NaN.
   */
  function NumberOrZero(v: JsVal): real
  {
    ToNumber(OrDefault(v, Num(0.0))).GetOr(0.0)
  }

  /** With the fallback omitted, `checkNumber` yields `NumberOrZero`. */
  lemma CheckNumberWithoutFallback(v: JsVal)
    ensures CheckNumber(v, Undefined) == Num(NumberOrZero(v))
  {
  }

  /**
    True when the offset has reached the limit minus the threshold, all three
    read as numbers with NaN taken as 0; reaching the mark exactly counts.
   */
  function CheckLoadCapability(limitY: JsVal, offsetY: JsVal, loadThreshold: JsVal): (r: bool)
    ensures r <==> NumberOrZero(offsetY) >= NumberOrZero(limitY) - NumberOrZero(loadThreshold)
  {
    var limit := CheckNumber(OrDefault(limitY, Num(0.0)), Undefined);
    var offset := CheckNumber(OrDefault(offsetY, Num(0.0)), Undefined);
    var threshold := CheckNumber(OrDefault(loadThreshold, Num(0.0)), Undefined);
    offset.n >= limit.n - threshold.n
  }

  /** An argument with no numeric reading counts as 0, in every position. */
  lemma NonNumericCountsAsZero(v: JsVal, limitY: JsVal, offsetY: JsVal, loadThreshold: JsVal)
    requires ToNumber(v) == None
    ensures CheckLoadCapability(v, offsetY, loadThreshold) == CheckLoadCapability(Num(0.0), offsetY, loadThreshold)
    ensures CheckLoadCapability(limitY, v, loadThreshold) == CheckLoadCapability(limitY, Num(0.0), loadThreshold)
    ensures CheckLoadCapability(limitY, offsetY, v) == CheckLoadCapability(limitY, offsetY, Num(0.0))
  {
  }

  /** With nothing numeric to go on, the test reads `0 >= 0 - 0` and succeeds. */
  lemma NothingNumericLoads(limitY: JsVal, offsetY: JsVal, loadThreshold: JsVal)
    requires ToNumber(OrDefault(limitY, Num(0.0))).None? || limitY == Undefined
    requires ToNumber(OrDefault(offsetY, Num(0.0))).None? || offsetY == Undefined
    requires ToNumber(OrDefault(loadThreshold, Num(0.0))).None? || loadThreshold == Undefined
    ensures CheckLoadCapability(limitY, offsetY, loadThreshold)
  {
  }

  /** Once loading is due, a larger offset keeps it due. */
  lemma LoadMonotoneInOffset(limitY: JsVal, offsetY: JsVal, offsetY2: JsVal, loadThreshold: JsVal)
    requires CheckLoadCapability(limitY, offsetY, loadThreshold)
    requires NumberOrZero(offsetY) <= NumberOrZero(offsetY2)
    ensures CheckLoadCapability(limitY, offsetY2, loadThreshold)
  {
  }

  /** Once loading is due, a larger threshold keeps it due. */
  lemma LoadMonotoneInThreshold(limitY: JsVal, offsetY: JsVal, loadThreshold: JsVal, loadThreshold2: JsVal)
    requires CheckLoadCapability(limitY, offsetY, loadThreshold)
    requires NumberOrZero(loadThreshold) <= NumberOrZero(loadThreshold2)
    ensures CheckLoadCapability(limitY, offsetY, loadThreshold2)
  {
  }

  /** Once loading is due, a smaller limit keeps it due. */
  lemma LoadAntitoneInLimit(limitY: JsVal, limitY2: JsVal, offsetY: JsVal, loadThreshold: JsVal)
    requires CheckLoadCapability(limitY, offsetY, loadThreshold)
    requires NumberOrZero(limitY2) <= NumberOrZero(limitY)
    ensures CheckLoadCapability(limitY2, offsetY, loadThreshold)
  {
  }

  /** Decimal-string arguments are compared as the numbers they spell. */
  lemma LoadFromIntegerTexts(limit: int, offset: int, threshold: int)
    ensures CheckLoadCapability(Str(IntToString(limit)), Str(IntToString(offset)), Str(IntToString(threshold)))
        <==> offset >= limit - threshold
  {
    StringToNumberOfIntToString(limit);
    StringToNumberOfIntToString(offset);
    StringToNumberOfIntToString(threshold);
  }

  lemma LoadExamples()
    ensures CheckLoadCapability(Num(100.0), Num(100.0), Num(0.0))
    ensures !CheckLoadCapability(Num(100.0), Num(79.0), Num(20.0))
    ensures CheckLoadCapability(Num(100.0), Num(80.0), Num(20.0))
    ensures CheckLoadCapability(Undefined, Undefined, Undefined)
    ensures CheckLoadCapability(Str("100"), Str("90"), Str("10"))
  {
    assert IntToString(100) == "100";
    assert IntToString(90) == "90";
    assert IntToString(10) == "10";
    LoadFromIntegerTexts(100, 90, 10);
  }

  // ---------------------------------------------------------------------
  // getScrollState(scrollBar, axis = "", prop = "")
  // ---------------------------------------------------------------------

  /** The axis values that narrow the state to one key. */
  predicate IsAxis(axis: JsVal) {
    axis == Str("x") || axis == Str("y")
  }

  /**
    Reads the state at the dotted path `prop` of `scrollBar` (an empty object
    when the path does not resolve) and, for axis "x" or "y", that key of it.
    An omitted `prop` is the empty string, the default of the parameter.
   */
  function GetScrollState(scrollBar: JsVal, axis: JsVal, prop: string): (r: JsVal)
    ensures !IsAxis(axis) ==> r != Undefined
  {
    var state := Get(scrollBar, prop, EmptyObject);
    var a := OrDefault(axis, Str(""));
    if IsAxis(a) then Get(state, a.s, Undefined) else state
  }

  /**
    Without an axis, the result is what the path resolves to, or `{}` when it
    resolves to nothing (a resolved `null` is kept).
   */
  lemma GetScrollStateWholeState(scrollBar: JsVal, axis: JsVal, prop: string)
    requires !IsAxis(axis)
    ensures var found := Walk(scrollBar, CastPath(scrollBar, prop));
            GetScrollState(scrollBar, axis, prop) == if found == Undefined then EmptyObject else found
  {
  }

  /**
    With axis "x" or "y", the result is that key of the resolved state, and
    `undefined` when the state is not an object holding that key.
   */
  lemma GetScrollStateNarrowed(scrollBar: JsVal, axis: JsVal, prop: string)
    requires IsAxis(axis)
    ensures var state := GetScrollState(scrollBar, Undefined, prop);
            GetScrollState(scrollBar, axis, prop)
              == if state.Obj? && axis.s in state.fields then state.fields[axis.s] else Undefined
  {
    var state := Get(scrollBar, prop, EmptyObject);
    assert CastPath(state, axis.s) == [axis.s];
  }

  /**
    A path of '.'-free keys reads those keys one after another (unless the
    whole path string is a key of `scrollBar` itself).
   */
  lemma GetScrollStateDottedPath(scrollBar: JsVal, axis: JsVal, keys: seq<string>)
    requires |keys| >= 1 && NoSeparator(keys, '.')
    requires |keys| == 1 || !(scrollBar.Obj? && Join(keys, '.') in scrollBar.fields)
    requires !IsAxis(axis)
    ensures var found := Walk(scrollBar, keys);
            GetScrollState(scrollBar, axis, Join(keys, '.')) == if found == Undefined then EmptyObject else found
  {
    DottedPath(scrollBar, keys);
  }

  /** A state stored at a dotted path is found again there. */
  lemma GetScrollStateOfNested(keys: seq<string>, leaf: JsVal, axis: JsVal)
    requires |keys| >= 1 && NoSeparator(keys, '.')
    requires leaf != Undefined && !IsAxis(axis)
    ensures GetScrollState(Nest(keys, leaf), axis, Join(keys, '.')) == leaf
  {
    var sb := Nest(keys, leaf);
    if |keys| > 1 {
      SplitJoin(keys, '.');
      assert Join(keys, '.') != keys[0] by {
        assert Split(keys[0], '.') == [keys[0]] by { SplitWithoutSeparator(keys[0], '.'); }
      }
    }
    GetScrollStateDottedPath(sb, axis, keys);
    WalkNest(keys, leaf);
  }

  lemma GetScrollStateExamples()
    ensures GetScrollState(Obj(map["move" := Obj(map["x" := Num(5.0), "y" := Num(9.0)])]), Str("x"), "move") == Num(5.0)
    ensures GetScrollState(EmptyObject, Str("x"), "move") == Undefined
    ensures GetScrollState(Undefined, Str(""), "move") == EmptyObject
    ensures GetScrollState(Obj(map["move" := Null]), Str(""), "move") == Null
    ensures GetScrollState(Obj(map["move" := Null]), Str("y"), "move") == Undefined
  {
    assert CastPath(EmptyObject, "move") == ["move"];
    assert CastPath(Null, "x") == ["x"];
    assert CastPath(EmptyObject, "x") == ["x"];
  }
}
