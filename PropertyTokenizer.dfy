/**
 * PropertyTokenizer: splits a property expression such as `orders[0].items[1].name` into its
 * first segment (`orders[0]`, with name `orders` and index `0`) and the remaining children.
 */
module PropertyTokenizer {
  import opened Wrappers
  import opened Text

  datatype Tokenizer = Tokenizer(
    name: string,
    indexedName: string,
    index: Option<string>,
    children: Option<string>)

  /** The exceptions the tokenizer can raise. */
  datatype TokenizerError =
    | StringIndexOutOfBounds   // `substring(begin, end)` with begin > end: '[' closes the segment
    | UnsupportedOperation     // `remove()`

  /** The first segment of an expression: everything before the first '.'. */
  function FirstSegment(fullname: string): (seg: string)
    ensures '.' !in seg
    ensures seg == fullname || (|seg| < |fullname| && fullname[..|seg| + 1] == seg + ".")
  {
    var delim := IndexOfChar(fullname, '.');
    if delim > -1 then fullname[..delim] else fullname
  }

  /** True when the first '[' of a segment is its last character, where `substring` throws. */
  predicate BracketIsLast(segment: string) {
    var open := IndexOfChar(segment, '[');
    open > -1 && open + 1 > |segment| - 1
  }

  /** `new PropertyTokenizer(fullname)` */
  function Tokenize(fullname: string): (r: Result<Tokenizer, TokenizerError>)
    ensures r.Failure? <==> BracketIsLast(FirstSegment(fullname))
    ensures r.Success? ==> (r.value.children.None? <==> '.' !in fullname)
    ensures r.Success? && r.value.children.None? ==> r.value.indexedName == fullname
    ensures r.Success? && r.value.children.Some? ==>
      r.value.indexedName + "." + r.value.children.value == fullname && '.' !in r.value.indexedName
    ensures r.Success? && r.value.index.None? ==>
      r.value.name == r.value.indexedName && '[' !in r.value.indexedName
    ensures r.Success? && r.value.index.Some? ==>
      '[' !in r.value.name &&
      |r.value.indexedName| == |r.value.name| + |r.value.index.value| + 2 &&
      r.value.indexedName[..|r.value.indexedName| - 1] == r.value.name + "[" + r.value.index.value
  {
    var name := FirstSegment(fullname);
    if BracketIsLast(name) then Failure(StringIndexOutOfBounds)
    else
      var parts := SplitIndex(name);
      Success(Tokenizer(parts.0, name, parts.1, Children(fullname)))
  }

  /** The children of an expression: everything after its first '.', if it has one. */
  function Children(fullname: string): (c: Option<string>)
    ensures c.None? <==> '.' !in fullname
    ensures c.Some? ==> FirstSegment(fullname) + "." + c.value == fullname
  {
    var delim := IndexOfChar(fullname, '.');
    if delim > -1 then
      assert fullname == fullname[..delim] + "." + fullname[delim + 1..];
      Some(fullname[delim + 1..])
    else None
  }

  /** A segment split at its first '[': the name before it, and the index up to the last character. */
  function SplitIndex(segment: string): (r: (string, Option<string>))
    requires !BracketIsLast(segment)
    ensures r.1.None? ==> r.0 == segment && '[' !in segment
    ensures r.1.Some? ==>
      '[' !in r.0 && |segment| == |r.0| + |r.1.value| + 2 &&
      segment[..|segment| - 1] == r.0 + "[" + r.1.value
  {
    var open := IndexOfChar(segment, '[');
    if open > -1 then
      var index := segment[open + 1..|segment| - 1];
      assert segment[..|segment| - 1] == segment[..open] + "[" + index;
      (segment[..open], Some(index))
    else (segment, None)
  }

  /** `hasNext()` */
  function HasNext(t: Tokenizer): (b: bool)
    ensures b <==> t.children.Some?
  {
    t.children != None
  }

  /** `next()`: tokenizes the children; Java passes null when there are none, which fails. */
  function Next(t: Tokenizer): (r: Result<Tokenizer, TokenizerError>)
    requires HasNext(t)
    ensures r.Failure? <==> BracketIsLast(FirstSegment(t.children.value))
    ensures r.Success? && r.value.children.Some? ==> |r.value.children.value| < |t.children.value|
  {
    Tokenize(t.children.value)
  }

  /** `remove()` is not supported. */
  function Remove(t: Tokenizer): (r: Outcome<TokenizerError>)
    ensures r == Fail(UnsupportedOperation)
  {
    Fail(UnsupportedOperation)
  }

  /** The indexed names visited by iterating a tokenizer to its end. */
  function Segments(fullname: string): (r: Result<seq<string>, TokenizerError>)
    ensures r.Success? ==> |r.value| > 0
    decreases |fullname|
  {
    var t :- Tokenize(fullname);
    if !HasNext(t) then Success([t.indexedName])
    else
      assert |t.children.value| < |fullname|;
      var rest :- Segments(t.children.value);
      Success([t.indexedName] + rest)
  }

  /** One step of the iteration: the first segment, then the segments of the children. */
  lemma SegmentsUnfold(fullname: string)
    requires Segments(fullname).Success?
    ensures Tokenize(fullname).Success?
    ensures var t := Tokenize(fullname).value;
      t.children.Some? ==>
        Segments(t.children.value).Success? &&
        Segments(fullname).value == [t.indexedName] + Segments(t.children.value).value
    ensures var t := Tokenize(fullname).value;
      t.children.None? ==> Segments(fullname).value == [t.indexedName]
  {
  }

  /** The segments joined with '.' give back the expression, one segment per '.' plus one. */
  lemma {:induction false} SegmentsRoundTrip(fullname: string)
    requires Segments(fullname).Success?
    ensures Join(".", Segments(fullname).value) == fullname
    ensures forall i :: 0 <= i < |Segments(fullname).value| ==> '.' !in Segments(fullname).value[i]
    decreases |fullname|
  {
    SegmentsUnfold(fullname);
    var t := Tokenize(fullname).value;
    var all := Segments(fullname).value;
    if t.children.Some? {
      var c := t.children.value;
      SegmentsRoundTrip(c);
      var rest := Segments(c).value;
      assert all[1..] == rest;
      assert forall i :: 1 <= i < |all| ==> all[i] == rest[i - 1];
    }
  }

  /** An expression without '[' never makes the tokenizer throw. */
  lemma {:induction false} NoBracketNeverFails(fullname: string)
    requires '[' !in fullname
    ensures Segments(fullname).Success?
    decreases |fullname|
  {
    var seg := FirstSegment(fullname);
    assert '[' !in seg by {
      if seg != fullname {
        assert seg == fullname[..|seg|];
      }
    }
    var t := Tokenize(fullname).value;
    if HasNext(t) {
      var c := t.children.value;
      assert fullname == t.indexedName + "." + c;
      assert forall i :: 0 <= i < |c| ==> c[i] == fullname[|t.indexedName| + 1 + i];
      NoBracketNeverFails(c);
    }
  }
}
