/** The Python values that cross the wire: what `json.loads` can produce, plus bytes and exception objects. */
module Values {
  import opened Outcomes

  /** A Unicode code point; a Python `str` is a sequence of these and may hold lone surrogates. */
  type CodePoint = x: int | 0 <= x <= 0x10_FFFF

  type Byte = x: int | 0 <= x < 0x100

  datatype Value =
    | Null
    | Bool(b: bool)
    | Int(i: int)
    | Str(text: seq<CodePoint>)
    | Bytes(bytes: seq<Byte>)
    | List(items: seq<Value>)
    | Dict(entries: seq<(string, Value)>)
    | Exc(failure: Failure)        // a Python exception object held as a value

  /** Keyword arguments in call order. */
  type Kwargs = seq<(string, Value)>

  /** The code points of a Dafny string (never surrogates). */
  function Text(s: string): (t: seq<CodePoint>)
    ensures |t| == |s|
    ensures forall i :: 0 <= i < |s| ==> t[i] == s[i] as int
  {
    seq(|s|, i requires 0 <= i < |s| => s[i] as int)
  }

  /** A string key of a Dict value as code points: JSON object keys are `str`. */
  function KeyText(k: string): Value { Str(Text(k)) }

  /** The request envelope `{"args": args, "kwargs": kwargs}`. */
  function Envelope(args: seq<Value>, kwargs: Kwargs): (v: Value)
    ensures v.Dict? && |v.entries| == 2
    ensures GetItem(v, "args") == Ok(List(args)) && GetItem(v, "kwargs") == Ok(Dict(kwargs))
  {
    var v := Dict([("args", List(args)), ("kwargs", Dict(kwargs))]);
    assert GetItem(Dict(v.entries[1..]), "kwargs") == Ok(Dict(kwargs));
    v
  }

  /** What the client proxy returns instead of raising: `{"error": e}`. */
  function ErrorValue(e: Failure): (v: Value)
    ensures v.Dict? && |v.entries| == 1
    ensures GetItem(v, "error") == Ok(Exc(e))
  {
    Dict([("error", Exc(e))])
  }

  /** `d[key]` on a Python dict: the first entry with that key, KeyError if none, TypeError on a non-dict. */
  function GetItem(d: Value, key: string): (r: Outcome<Value>)
    ensures d.Dict? && (exists i :: 0 <= i < |d.entries| && d.entries[i].0 == key) <==> r.Ok?
    ensures r.Ok? ==> exists i :: 0 <= i < |d.entries| && d.entries[i] == (key, r.value)
                                 && forall j :: 0 <= j < i ==> d.entries[j].0 != key
    ensures d.Dict? && r.Fail? ==> r == Fail(KeyError(key))
    ensures !d.Dict? ==> r == Fail(TypeError)
    decreases if d.Dict? then |d.entries| else 0
  {
    if !d.Dict? then Fail(TypeError)
    else if |d.entries| == 0 then Fail(KeyError(key))
    else if d.entries[0].0 == key then Ok(d.entries[0].1)
    else
      var r := GetItem(Dict(d.entries[1..]), key);
      assert r.Ok? ==> exists i :: 0 <= i < |d.entries| && d.entries[i] == (key, r.value)
                                   && forall j :: 0 <= j < i ==> d.entries[j].0 != key by {
        if r.Ok? {
          var i :| 0 <= i < |d.entries| - 1 && d.entries[1..][i] == (key, r.value)
                   && forall j :: 0 <= j < i ==> d.entries[1..][j].0 != key;
          assert d.entries[i + 1] == (key, r.value);
          forall j | 0 <= j < i + 1 ensures d.entries[j].0 != key {
            if j > 0 { assert d.entries[j] == d.entries[1..][j - 1]; }
          }
        }
      }
      r
  }
}
