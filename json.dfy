/**
 * The JSON values the tutoring application writes to and reads from its storage files
 * (`json.dump` / `json.load`), restricted to what the application itself writes:
 * `null`, strings, lists and objects.
 */
module JsonData {
  import opened Wrappers

  datatype Json = Null | Str(str: string) | Arr(items: seq<Json>) | Obj(fields: map<string, Json>)

  /** Why a `from_dict` rejects a decoded value (the exception it raises). */
  datatype DecodeError =
    | InvalidData          // ValueError: empty data, or a required key absent
    | NotAList             // ValueError: the answers are not a list
    | MissingKey(key: string)  // KeyError on a subscript
    | WrongType            // a value of a shape the record cannot be built from

  /** Python truthiness of a decoded value: `None`, `""`, `[]` and `{}` are false. */
  predicate Truthy(j: Json) {
    match j
    case Null => false
    case Str(s) => s != ""
    case Arr(a) => a != []
    case Obj(m) => m != map[]
  }

  /** How an optional string field is written: `None` becomes `null`. */
  function OptStr(o: Option<string>): Json {
    if o.None? then Null else Str(o.value)
  }

  /** Reading an optional string field back; `None` when the value is neither `null` nor a string. */
  function ReadOptStr(j: Json): (r: Option<Option<string>>)
    ensures r.Some? <==> (j.Null? || j.Str?)
    ensures r.Some? ==> OptStr(r.value) == j
  {
    match j
    case Null => Some(None)
    case Str(s) => Some(Some(s))
    case _ => None
  }

  /** A list of strings as a JSON list. */
  function StrList(ss: seq<string>): (j: Json)
    ensures j.Arr? && |j.items| == |ss|
    ensures forall i :: 0 <= i < |ss| ==> j.items[i] == Str(ss[i])
  {
    Arr(seq(|ss|, i requires 0 <= i < |ss| => Str(ss[i])))
  }

  /** Reading a JSON list of strings; `None` when `j` is not a list or holds a non-string. */
  function ReadStrList(j: Json): (r: Option<seq<string>>)
    ensures r.Some? <==> j.Arr? && forall i :: 0 <= i < |j.items| ==> j.items[i].Str?
    ensures r.Some? ==> StrList(r.value) == j
  {
    if j.Arr? && forall i :: 0 <= i < |j.items| ==> j.items[i].Str? then
      var ss := seq(|j.items|, i requires 0 <= i < |j.items| && j.items[i].Str? => j.items[i].str);
      assert StrList(ss).items == j.items;
      Some(ss)
    else None
  }

  lemma ReadStrListOfStrList(ss: seq<string>)
    ensures ReadStrList(StrList(ss)) == Some(ss)
  {
    var r := ReadStrList(StrList(ss));
    assert r.value == ss;
  }
}
