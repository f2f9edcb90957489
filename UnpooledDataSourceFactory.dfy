/**
 * UnpooledDataSourceFactory.setProperties: splits the configured properties into driver
 * properties ("driver." prefix) and data-source properties, converting the latter to the
 * setter's type.
 */
module UnpooledDataSourceFactory {
  import opened Wrappers
  import opened Text
  import opened JavaTypes
  import opened Values

  const DriverPropertyPrefix: string := "driver."
  const DriverPropertyPrefixLength: nat := |DriverPropertyPrefix|

  datatype DataSourceError =
    | UnknownProperty(message: string)
    | NumberFormat(propertyName: string, value: string)

  predicate AllDigits(s: string) {
    forall i :: 0 <= i < |s| ==> IsDigit(s[i])
  }

  /**
   * `Integer.valueOf` / `Long.valueOf` on ASCII text: an optional sign, at least one digit,
   * and a value within [min, max]; anything else is a NumberFormatException (None).
   */
  function ParseDecimal(s: string, min: int, max: int): (r: Option<int>)
    ensures r.Some? ==> min <= r.value <= max
    ensures r.Some? ==> |s| > 0 && (s[0] == '-' || s[0] == '+' || IsDigit(s[0]))
  {
    if |s| == 0 then None
    else
      var negative := s[0] == '-';
      var digits := if s[0] == '-' || s[0] == '+' then s[1..] else s;
      if |digits| == 0 || !AllDigits(digits) then None
      else
        var magnitude: int := DigitsValue(digits);
        var v := if negative then -magnitude else magnitude;
        if min <= v <= max then Some(v) else None
  }

  /** Parsing the decimal text of a number in range gives the number back. */
  lemma ParseDecimalRoundTrip(n: int, min: int, max: int)
    requires min <= n <= max
    ensures ParseDecimal(IntToString(n), min, max) == Some(n)
  {
    var s := IntToString(n);
    if n < 0 {
      assert s[1..] == NatToString(-n);
    } else {
      assert s == NatToString(n);
      assert s[0] != '-' && s[0] != '+' by { assert IsDigit(s[0]); }
    }
  }

  /** Text with a character other than a digit after the optional sign is rejected. */
  lemma ParseDecimalRejectsNonDigit(s: string, min: int, max: int, k: nat)
    requires 0 < k < |s| && !IsDigit(s[k])
    ensures ParseDecimal(s, min, max) == None
  {
    var digits := if s[0] == '-' || s[0] == '+' then s[1..] else s;
    if s[0] == '-' || s[0] == '+' {
      assert digits[k - 1] == s[k];
    } else {
      assert digits[k] == s[k];
    }
  }

  /** `Boolean.valueOf(s)`: true exactly for "true" in any case. */
  predicate ParseBoolean(s: string) {
    EqualsIgnoreCase(s, "true")
  }

  /** `convertValue`: by the setter type, to Integer, Long, Boolean, or the string unchanged. */
  function ConvertValue(propertyName: string, targetType: JavaClass, value: string): (r: Result<Value, DataSourceError>)
    ensures (targetType == IntegerClass || targetType == IntType) ==>
      (r.Success? <==> ParseDecimal(value, IntMin, IntMax).Some?) &&
      (r.Success? ==> r.value == Int(ParseDecimal(value, IntMin, IntMax).value))
    ensures (targetType == LongClass || targetType == LongType) ==>
      (r.Success? <==> ParseDecimal(value, LongMin, LongMax).Some?) &&
      (r.Success? ==> r.value == Long(ParseDecimal(value, LongMin, LongMax).value))
    ensures (targetType == BooleanClass || targetType == BooleanType) ==> r == Success(Bool(ParseBoolean(value)))
    ensures targetType !in {IntegerClass, IntType, LongClass, LongType, BooleanClass, BooleanType} ==>
      r == Success(Str(value))
    ensures r.Failure? ==> r.error == NumberFormat(propertyName, value)
  {
    if targetType == IntegerClass || targetType == IntType then
      match ParseDecimal(value, IntMin, IntMax)
      case Some(v) => Success(Int(v))
      case None => Failure(NumberFormat(propertyName, value))
    else if targetType == LongClass || targetType == LongType then
      match ParseDecimal(value, LongMin, LongMax)
      case Some(v) => Success(Long(v))
      case None => Failure(NumberFormat(propertyName, value))
    else if targetType == BooleanClass || targetType == BooleanType then Success(Bool(ParseBoolean(value)))
    else Success(Str(value))
  }

  /** Converting the printed form of an int for an int setter gives the int back. */
  lemma ConvertIntRoundTrip(propertyName: string, n: int)
    requires InInt32(n)
    ensures ConvertValue(propertyName, IntType, IntToString(n)) == Success(Int(n))
  {
    ParseDecimalRoundTrip(n, IntMin, IntMax);
  }

  /** The state `setProperties` builds up while it walks the keys. */
  datatype Partition = Partition(
    values: map<string, Value>,
    driverProperties: map<string, string>,
    error: Option<DataSourceError>)

  predicate IsDriverKey(key: string) {
    StartsWith(key, DriverPropertyPrefix)
  }

  /** One iteration of the loop in `setProperties`. */
  function Step(p: Partition, setterTypes: map<string, JavaClass>, key: string, value: string): Partition {
    if IsDriverKey(key) then
      p.(driverProperties := p.driverProperties[key[DriverPropertyPrefixLength..] := value])
    else if key in setterTypes then
      match ConvertValue(key, setterTypes[key], value)
      case Success(v) => p.(values := p.values[key := v])
      case Failure(e) => p.(error := Some(e))
    else p.(error := Some(UnknownProperty("Unknown DataSource property: " + key)))
  }

  /** The loop of `setProperties` over the keys in iteration order; it stops at the first error. */
  function Apply(properties: map<string, string>, keys: seq<string>, setterTypes: map<string, JavaClass>,
                 start: map<string, Value>): Partition
    requires forall k :: 0 <= k < |keys| ==> keys[k] in properties
  {
    if |keys| == 0 then Partition(start, map[], None)
    else
      var prev := Apply(properties, keys[..|keys| - 1], setterTypes, start);
      var key := keys[|keys| - 1];
      if prev.error.Some? then prev else Step(prev, setterTypes, key, properties[key])
  }

  predicate BadKey(properties: map<string, string>, setterTypes: map<string, JavaClass>, key: string)
    requires key in properties
  {
    !IsDriverKey(key) &&
    (key !in setterTypes || ConvertValue(key, setterTypes[key], properties[key]).Failure?)
  }

  /** The loop fails exactly when some key is neither a driver key nor a settable, convertible property. */
  lemma {:induction false} ApplyFailsIffBadKey(properties: map<string, string>, keys: seq<string>,
                                                 setterTypes: map<string, JavaClass>, start: map<string, Value>)
    requires forall k :: 0 <= k < |keys| ==> keys[k] in properties
    ensures Apply(properties, keys, setterTypes, start).error.Some? <==>
      exists k :: 0 <= k < |keys| && BadKey(properties, setterTypes, keys[k])
  {
    if |keys| > 0 {
      var init := keys[..|keys| - 1];
      ApplyFailsIffBadKey(properties, init, setterTypes, start);
      assert forall k :: 0 <= k < |init| ==> init[k] == keys[k];
      var key := keys[|keys| - 1];
      if Apply(properties, init, setterTypes, start).error.None? && BadKey(properties, setterTypes, key) {
        assert Apply(properties, keys, setterTypes, start).error.Some?;
      }
      if exists k :: 0 <= k < |keys| && BadKey(properties, setterTypes, keys[k]) {
        var k :| 0 <= k < |keys| && BadKey(properties, setterTypes, keys[k]);
        if k < |init| {
          assert BadKey(properties, setterTypes, init[k]);
        }
      }
    }
  }

  /** Without an error, every driver key is recorded under its name after the prefix. */
  lemma {:induction false} ApplyRecordsDriverKeys(properties: map<string, string>, keys: seq<string>,
                                                    setterTypes: map<string, JavaClass>, start: map<string, Value>)
    requires forall k :: 0 <= k < |keys| ==> keys[k] in properties
    requires forall i, j :: 0 <= i < j < |keys| ==> keys[i] != keys[j]
    requires Apply(properties, keys, setterTypes, start).error.None?
    ensures var d := Apply(properties, keys, setterTypes, start).driverProperties;
      forall k :: 0 <= k < |keys| && IsDriverKey(keys[k]) ==>
        keys[k][DriverPropertyPrefixLength..] in d && d[keys[k][DriverPropertyPrefixLength..]] == properties[keys[k]]
  {
    if |keys| > 0 {
      var init := keys[..|keys| - 1];
      var key := keys[|keys| - 1];
      ApplyRecordsDriverKeys(properties, init, setterTypes, start);
      var d0 := Apply(properties, init, setterTypes, start).driverProperties;
      var d := Apply(properties, keys, setterTypes, start).driverProperties;
      forall k | 0 <= k < |keys| && IsDriverKey(keys[k])
        ensures keys[k][DriverPropertyPrefixLength..] in d && d[keys[k][DriverPropertyPrefixLength..]] == properties[keys[k]]
      {
        if k < |init| {
          assert init[k] == keys[k];
          if IsDriverKey(key) {
            StripPrefixInjective(keys[k], key);
          }
        }
      }
    }
  }

  /** The driver properties hold nothing but the driver keys, with the prefix removed. */
  lemma {:induction false} ApplyDriverPropertiesFromKeys(properties: map<string, string>, keys: seq<string>,
                                                          setterTypes: map<string, JavaClass>, start: map<string, Value>)
    requires forall k :: 0 <= k < |keys| ==> keys[k] in properties
    ensures var d := Apply(properties, keys, setterTypes, start).driverProperties;
      forall name :: name in d ==> DriverPropertyPrefix + name in keys
  {
    if |keys| > 0 {
      var init := keys[..|keys| - 1];
      var key := keys[|keys| - 1];
      ApplyDriverPropertiesFromKeys(properties, init, setterTypes, start);
      if IsDriverKey(key) {
        assert key == DriverPropertyPrefix + key[DriverPropertyPrefixLength..];
      }
      assert forall x :: x in init ==> x in keys;
    }
  }

  lemma StripPrefixInjective(a: string, b: string)
    requires IsDriverKey(a) && IsDriverKey(b) && a != b
    ensures a[DriverPropertyPrefixLength..] != b[DriverPropertyPrefixLength..]
  {
    assert a == DriverPropertyPrefix + a[DriverPropertyPrefixLength..];
    assert b == DriverPropertyPrefix + b[DriverPropertyPrefixLength..];
  }

  /**
   * Without an error, every other key is set to its converted value; values of properties not
   * among the keys are left as they were.
   */
  lemma {:induction false} ApplyValues(properties: map<string, string>, keys: seq<string>,
                                         setterTypes: map<string, JavaClass>, start: map<string, Value>)
    requires forall k :: 0 <= k < |keys| ==> keys[k] in properties
    requires Apply(properties, keys, setterTypes, start).error.None?
    ensures var v := Apply(properties, keys, setterTypes, start).values;
      (forall k :: 0 <= k < |keys| && !IsDriverKey(keys[k]) ==>
        keys[k] in setterTypes && keys[k] in v &&
        ConvertValue(keys[k], setterTypes[keys[k]], properties[keys[k]]).Success? &&
        v[keys[k]] == ConvertValue(keys[k], setterTypes[keys[k]], properties[keys[k]]).value) &&
      (forall name :: name in start && name !in keys ==> name in v && v[name] == start[name]) &&
      v.Keys <= start.Keys + set k | k in keys
  {
    ApplyValuesSet(properties, keys, setterTypes, start);
    ApplyValuesKept(properties, keys, setterTypes, start);
    ApplyValuesKeys(properties, keys, setterTypes, start);
  }

  /** Without an error, the last key's step was taken on the error-free result of the others. */
  lemma ApplyLast(properties: map<string, string>, keys: seq<string>,
                  setterTypes: map<string, JavaClass>, start: map<string, Value>)
    requires |keys| > 0
    requires forall k :: 0 <= k < |keys| ==> keys[k] in properties
    requires Apply(properties, keys, setterTypes, start).error.None?
    ensures forall k :: 0 <= k < |keys| - 1 ==> keys[..|keys| - 1][k] == keys[k]
    ensures var prev := Apply(properties, keys[..|keys| - 1], setterTypes, start);
      var key := keys[|keys| - 1];
      prev.error.None? && Apply(properties, keys, setterTypes, start) == Step(prev, setterTypes, key, properties[key])
  {
  }

  /** Every key that is not a driver key has a setter and holds its converted value. */
  lemma {:induction false} ApplyValuesSet(properties: map<string, string>, keys: seq<string>,
                                            setterTypes: map<string, JavaClass>, start: map<string, Value>)
    requires forall k :: 0 <= k < |keys| ==> keys[k] in properties
    requires Apply(properties, keys, setterTypes, start).error.None?
    ensures var v := Apply(properties, keys, setterTypes, start).values;
      forall k :: 0 <= k < |keys| && !IsDriverKey(keys[k]) ==>
        keys[k] in setterTypes && keys[k] in v &&
        ConvertValue(keys[k], setterTypes[keys[k]], properties[keys[k]]).Success? &&
        v[keys[k]] == ConvertValue(keys[k], setterTypes[keys[k]], properties[keys[k]]).value
  {
    if |keys| > 0 {
      ApplyLast(properties, keys, setterTypes, start);
      ApplyValuesSet(properties, keys[..|keys| - 1], setterTypes, start);
    }
  }

  /** A property no key names keeps its value. */
  lemma {:induction false} ApplyValuesKept(properties: map<string, string>, keys: seq<string>,
                                             setterTypes: map<string, JavaClass>, start: map<string, Value>)
    requires forall k :: 0 <= k < |keys| ==> keys[k] in properties
    requires Apply(properties, keys, setterTypes, start).error.None?
    ensures var v := Apply(properties, keys, setterTypes, start).values;
      forall name :: name in start && name !in keys ==> name in v && v[name] == start[name]
  {
    if |keys| > 0 {
      ApplyLast(properties, keys, setterTypes, start);
      var init := keys[..|keys| - 1];
      ApplyValuesKept(properties, init, setterTypes, start);
    }
  }

  /** Only properties that started out set or that some key names are set. */
  lemma {:induction false} ApplyValuesKeys(properties: map<string, string>, keys: seq<string>,
                                             setterTypes: map<string, JavaClass>, start: map<string, Value>)
    requires forall k :: 0 <= k < |keys| ==> keys[k] in properties
    requires Apply(properties, keys, setterTypes, start).error.None?
    ensures Apply(properties, keys, setterTypes, start).values.Keys <= start.Keys + set k | k in keys
  {
    if |keys| > 0 {
      ApplyLast(properties, keys, setterTypes, start);
      var init := keys[..|keys| - 1];
      ApplyValuesKeys(properties, init, setterTypes, start);
      assert forall k :: k in init ==> k in keys;
    }
  }

  /** The factory and the properties set on its data source so far. */
  class DataSourceFactory {
    /** The data source's writable properties and their setter types (MetaObject's view). */
    const setterTypes: map<string, JavaClass>
    /** Values set on the data source through its setters. */
    var dataSourceValues: map<string, Value>
    /** The data source's driverProperties, once set. */
    var driverProperties: Option<map<string, string>>

    constructor (setterTypes: map<string, JavaClass>)
      ensures this.setterTypes == setterTypes
      ensures dataSourceValues == map[] && driverProperties == None
    {
      this.setterTypes := setterTypes;
      dataSourceValues := map[];
      driverProperties := None;
    }

    /**
     * `setProperties`; `keys` is the iteration order of the properties' key set. Settings made
     * before an unknown key stay on the data source, as they do in Java.
     */
    method SetProperties(properties: map<string, string>, keys: seq<string>) returns (r: Outcome<DataSourceError>)
      requires forall k :: 0 <= k < |keys| ==> keys[k] in properties
      requires forall key :: key in properties ==> key in keys
      requires forall i, j :: 0 <= i < j < |keys| ==> keys[i] != keys[j]
      modifies this
      ensures var p := Apply(properties, keys, setterTypes, old(dataSourceValues));
        dataSourceValues == p.values &&
        (p.error.Some? ==> r == Fail(p.error.value) && driverProperties == old(driverProperties)) &&
        (p.error.None? ==>
          r == Pass &&
          driverProperties == if |p.driverProperties| > 0 then Some(p.driverProperties) else old(driverProperties))
    {
      var start := dataSourceValues;
      var driver: map<string, string> := map[];
      var i := 0;
      while i < |keys|
        invariant 0 <= i <= |keys|
        invariant Apply(properties, keys[..i], setterTypes, start) == Partition(dataSourceValues, driver, None)
        invariant driverProperties == old(driverProperties)
      {
        var propertyName := keys[i];
        SetPropertiesStep(properties, keys, setterTypes, start, i, dataSourceValues, driver);
        if IsDriverKey(propertyName) {
          var value := properties[propertyName];
          driver := driver[propertyName[DriverPropertyPrefixLength..] := value];
        } else if propertyName in setterTypes {
          var value := properties[propertyName];
          var converted := ConvertValue(propertyName, setterTypes[propertyName], value);
          if converted.Failure? {
            return Fail(converted.error);
          }
          dataSourceValues := dataSourceValues[propertyName := converted.value];
        } else {
          return Fail(UnknownProperty("Unknown DataSource property: " + propertyName));
        }
        i := i + 1;
      }
      assert keys[..|keys|] == keys;
      if |driver| > 0 {
        driverProperties := Some(driver);
      }
      return Pass;
    }
  }

  /** One iteration of `setProperties` from a state without error: the state after it, and the final one on an error. */
  lemma SetPropertiesStep(properties: map<string, string>, keys: seq<string>, setterTypes: map<string, JavaClass>,
                          start: map<string, Value>, i: nat, values: map<string, Value>, driver: map<string, string>)
    requires forall k :: 0 <= k < |keys| ==> keys[k] in properties
    requires i < |keys|
    requires Apply(properties, keys[..i], setterTypes, start) == Partition(values, driver, None)
    ensures var key := keys[i];
      var value := properties[key];
      var next := Apply(properties, keys[..i + 1], setterTypes, start);
      (IsDriverKey(key) ==> next == Partition(values, driver[key[DriverPropertyPrefixLength..] := value], None)) &&
      (!IsDriverKey(key) && key in setterTypes ==>
        match ConvertValue(key, setterTypes[key], value)
        case Success(v) => next == Partition(values[key := v], driver, None)
        case Failure(e) => Apply(properties, keys, setterTypes, start) == Partition(values, driver, Some(e))) &&
      (!IsDriverKey(key) && key !in setterTypes ==>
        Apply(properties, keys, setterTypes, start) ==
          Partition(values, driver, Some(UnknownProperty("Unknown DataSource property: " + key))))
  {
    ApplyExtend(properties, keys, setterTypes, start, i);
    var key := keys[i];
    if !IsDriverKey(key) && (key !in setterTypes || ConvertValue(key, setterTypes[key], properties[key]).Failure?) {
      ApplyStopsAtError(properties, keys, setterTypes, start, i + 1);
    }
  }

  /** One more key: the loop state after it. */
  lemma ApplyExtend(properties: map<string, string>, keys: seq<string>,
                    setterTypes: map<string, JavaClass>, start: map<string, Value>, i: nat)
    requires forall k :: 0 <= k < |keys| ==> keys[k] in properties
    requires i < |keys|
    ensures var prev := Apply(properties, keys[..i], setterTypes, start);
      Apply(properties, keys[..i + 1], setterTypes, start) ==
        if prev.error.Some? then prev else Step(prev, setterTypes, keys[i], properties[keys[i]])
  {
    assert keys[..i + 1][..i] == keys[..i];
  }

  /** Once the loop has failed, the remaining keys change nothing. */
  lemma {:induction false} ApplyStopsAtError(properties: map<string, string>, keys: seq<string>,
                                               setterTypes: map<string, JavaClass>, start: map<string, Value>, i: nat)
    requires forall k :: 0 <= k < |keys| ==> keys[k] in properties
    requires i <= |keys|
    requires Apply(properties, keys[..i], setterTypes, start).error.Some?
    ensures Apply(properties, keys, setterTypes, start) == Apply(properties, keys[..i], setterTypes, start)
    decreases |keys| - i
  {
    if i < |keys| {
      ApplyExtend(properties, keys, setterTypes, start, i);
      ApplyStopsAtError(properties, keys, setterTypes, start, i + 1);
    } else {
      assert keys[..i] == keys;
    }
  }
}
