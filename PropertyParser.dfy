/**
 * PropertyParser's VariableTokenHandler: replaces the content of one `${...}` token by the value
 * of a configuration variable, optionally with a `key:default` fallback.
 */
module PropertyParser {
  import opened Wrappers
  import opened Text

  const KeyPrefix: string := "org.apache.ibatis.parsing.PropertyParser."
  const KeyEnableDefaultValue: string := KeyPrefix + "enable-default-value"
  const KeyDefaultValueSeparator: string := KeyPrefix + "default-value-separator"
  const EnableDefaultValue: string := "false"
  const DefaultValueSeparator: string := ":"

  /** java.util.Properties without a defaults chain; None is a null Properties object. */
  type Variables = Option<map<string, string>>

  datatype VariableTokenHandler = VariableTokenHandler(
    variables: Variables,
    enableDefaultValue: bool,
    defaultValueSeparator: string)

  /** `Boolean.parseBoolean(s)` */
  predicate ParseBoolean(s: string) {
    EqualsIgnoreCase(s, "true")
  }

  /** `getPropertyValue(key, defaultValue)` */
  function GetPropertyValue(variables: Variables, key: string, defaultValue: string): (v: string)
    ensures variables.Some? && key in variables.value ==> v == variables.value[key]
    ensures (variables.None? || key !in variables.value) ==> v == defaultValue
  {
    match variables
    case None => defaultValue
    case Some(m) => if key in m then m[key] else defaultValue
  }

  /** The `VariableTokenHandler(variables)` constructor. */
  function NewHandler(variables: Variables): (h: VariableTokenHandler)
    ensures h.variables == variables
    ensures h.enableDefaultValue <==>
      variables.Some? && KeyEnableDefaultValue in variables.value &&
      ParseBoolean(variables.value[KeyEnableDefaultValue])
    ensures h.defaultValueSeparator ==
      if variables.Some? && KeyDefaultValueSeparator in variables.value
      then variables.value[KeyDefaultValueSeparator] else ":"
  {
    VariableTokenHandler(
      variables,
      ParseBoolean(GetPropertyValue(variables, KeyEnableDefaultValue, EnableDefaultValue)),
      GetPropertyValue(variables, KeyDefaultValueSeparator, DefaultValueSeparator))
  }

  /** With no configuration the default-value feature is off and the separator is ":". */
  lemma DefaultsWhenUnconfigured(variables: Variables)
    requires variables.None? || (KeyEnableDefaultValue !in variables.value && KeyDefaultValueSeparator !in variables.value)
    ensures !NewHandler(variables).enableDefaultValue
    ensures NewHandler(variables).defaultValueSeparator == ":"
  {
    assert !ParseBoolean("false") by {
      assert ToUpper("false")[0] == 'F';
    }
  }

  /** The token text put back unchanged: `"${" + content + "}"`. */
  function Unresolved(content: string): string {
    "${" + content + "}"
  }

  /** Splits `key<sep>default` at the first separator; None when the separator is absent. */
  function SplitDefault(content: string, sep: string): (r: Option<(string, string)>)
    ensures r.None? <==> forall i :: 0 <= i <= |content| ==> !OccursAt(content, sep, i)
    ensures r.Some? ==> r.value.0 + sep + r.value.1 == content
    ensures r.Some? ==> forall i :: 0 <= i < |r.value.0| ==> !OccursAt(content, sep, i)
  {
    var at := IndexOf(content, sep);
    if at >= 0 then
      assert content == content[..at] + sep + content[at + |sep|..];
      Some((content[..at], content[at + |sep|..]))
    else None
  }

  /** `handleToken(content)` */
  function HandleToken(h: VariableTokenHandler, content: string): (r: string)
    ensures h.variables.None? ==> r == Unresolved(content)
    ensures h.variables.Some? && h.enableDefaultValue && SplitDefault(content, h.defaultValueSeparator).Some? ==>
      var (key, default) := SplitDefault(content, h.defaultValueSeparator).value;
      r == if key in h.variables.value then h.variables.value[key] else default
    ensures h.variables.Some? && !(h.enableDefaultValue && SplitDefault(content, h.defaultValueSeparator).Some?) ==>
      r == if content in h.variables.value then h.variables.value[content] else Unresolved(content)
  {
    match h.variables
    case None => Unresolved(content)
    case Some(vars) =>
      var split := if h.enableDefaultValue then SplitDefault(content, h.defaultValueSeparator) else None;
      if split.Some? then GetPropertyValue(h.variables, split.value.0, split.value.1)
      else if content in vars then vars[content]
      else Unresolved(content)
  }

  /** The result of a lookup that finds nothing and has no default is the token itself. */
  lemma MissingKeyKeepsToken(variables: map<string, string>, content: string)
    requires content !in variables
    requires !NewHandler(Some(variables)).enableDefaultValue
    ensures HandleToken(NewHandler(Some(variables)), content) == Unresolved(content)
  {
  }

  /** `${key:fallback}` with defaults enabled and the key missing yields the fallback. */
  lemma DefaultValueUsed(variables: map<string, string>, key: string, fallback: string)
    requires KeyEnableDefaultValue in variables && variables[KeyEnableDefaultValue] == "true"
    requires KeyDefaultValueSeparator !in variables
    requires ':' !in key && key !in variables
    ensures HandleToken(NewHandler(Some(variables)), key + ":" + fallback) == fallback
  {
    var h := NewHandler(Some(variables));
    var content := key + ":" + fallback;
    assert ParseBoolean("true");
    assert OccursAt(content, ":", |key|);
    var split := SplitDefault(content, ":").value;
    assert forall i :: 0 <= i < |key| ==> content[i] == key[i] && content[i] != ':';
    assert content[|split.0|] == ':';
    assert |split.0| == |key|;
    assert split.0 == content[..|key|];
    assert split.0 == key;
    assert split.1 == content[|key| + 1..];
    assert split.1 == fallback;
  }
}
