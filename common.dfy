/** Python values, exceptions and the dictionary bookkeeping shared by the
    scripts: the vocabulary the other modules are written in. */
module Common {

  datatype Option<T> = None | Some(value: T)

  /** The Python exceptions the modelled code raises or catches. */
  datatype PyError =
    | ValueError(message: string)
    | TypeError
    | IndexError
    | KeyError
    /** An exception raised by a foreign library (ROOT, PyAMI) */
    | ForeignError

  /** A value, or the exception that was raised instead of returning it. */
  datatype Result<T> = Ok(value: T) | Err(error: PyError) {
    predicate IsFailure() { Err? }

    function PropagateFailure<U>(): Result<U>
      requires Err?
    {
      Err(error)
    }

    function Extract(): T
      requires Ok?
    {
      value
    }
  }

  /** The dynamically typed values that end up in the weight records:
      Python `int`, `float` (as an exact real), `str` and `list`, and any
      other object a counter may return (`None`, say), which `float()`
      rejects with TypeError. */
  datatype Value =
    | Int(i: int)
    | Float(x: real)
    | Str(s: string)
    | List(items: seq<Value>)
    | Other

  /** A dictionary of such values: a weight record, or what get_info
      returns. */
  type Record = map<string, Value>

  /** Python's `float(v)`. How a string is read as a number is library
      behaviour and is given as `parse`; a list or another object cannot
      be converted. */
  function ToFloat(v: Value, parse: string -> Option<real>): (r: Result<real>)
    ensures r.Err? ==> r.error.ValueError? || r.error.TypeError?
  {
    match v
    case Int(i) => Ok(i as real)
    case Float(x) => Ok(x)
    case Str(s) =>
      if parse(s).Some? then Ok(parse(s).value)
      else Err(ValueError("could not convert string to float: " + s))
    case List(_) => Err(TypeError)
    case Other => Err(TypeError)
  }

  /** The dictionary left by running `d[k] = v` for every pair `(k, v)` of
      `pairs` in order, starting from `{}`. */
  function LastWins<K, V>(pairs: seq<(K, V)>): map<K, V>
  {
    if pairs == [] then map[]
    else LastWins(pairs[..|pairs| - 1])[pairs[|pairs| - 1].0 := pairs[|pairs| - 1].1]
  }

  /** Every key assigned is present, and nothing else is. */
  lemma {:induction false} LastWinsKeys<K, V>(pairs: seq<(K, V)>)
    ensures LastWins(pairs).Keys == set i | 0 <= i < |pairs| :: pairs[i].0
  {
    if pairs != [] {
      var front := pairs[..|pairs| - 1];
      LastWinsKeys(front);
      assert forall i :: 0 <= i < |front| ==> front[i] == pairs[i];
    }
  }

  /** A key maps to the value of its last assignment: later pairs with the
      same key overwrite earlier ones. */
  lemma {:induction false} LastWinsValue<K, V>(pairs: seq<(K, V)>, i: nat)
    requires i < |pairs|
    requires forall j :: i < j < |pairs| ==> pairs[j].0 != pairs[i].0
    ensures pairs[i].0 in LastWins(pairs)
    ensures LastWins(pairs)[pairs[i].0] == pairs[i].1
  {
    if i < |pairs| - 1 {
      var front := pairs[..|pairs| - 1];
      LastWinsValue(front, i);
    }
  }

  /** The keys present do not depend on the order of the assignments. */
  lemma LastWinsKeysAnyOrder<K, V>(pairs: seq<(K, V)>, reordered: seq<(K, V)>)
    requires multiset(pairs) == multiset(reordered)
    ensures LastWins(pairs).Keys == LastWins(reordered).Keys
  {
    LastWinsKeys(pairs);
    LastWinsKeys(reordered);
    forall i | 0 <= i < |pairs|
      ensures pairs[i].0 in LastWins(reordered).Keys
    {
      assert pairs[i] in multiset(reordered);
      var j :| 0 <= j < |reordered| && reordered[j] == pairs[i];
    }
    forall j | 0 <= j < |reordered|
      ensures reordered[j].0 in LastWins(pairs).Keys
    {
      assert reordered[j] in multiset(pairs);
      var i :| 0 <= i < |pairs| && pairs[i] == reordered[j];
    }
  }
}
