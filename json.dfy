/** JSON-like values as the Python code sees them after `json.loads` or
    `csv.DictReader`, Python truthiness, and the exceptions the core can raise. */
module Json {

  datatype Option<T> = None | Some(value: T)

  /** A Python value decoded from JSON. Objects keep their insertion order, as
      Python dicts do; a key that occurs twice is resolved by the last entry. */
  datatype Value =
    | Null
    | Bool(b: bool)
    | Num(n: int)
    | Str(s: string)
    | List(items: seq<Value>)
    | Obj(entries: seq<(string, Value)>)

  /** Python's `bool(v)`: None, False, 0, "", [] and {} are falsy. */
  predicate Truthy(v: Value) {
    match v
    case Null => false
    case Bool(b) => b
    case Num(n) => n != 0
    case Str(s) => s != ""
    case List(items) => items != []
    case Obj(entries) => entries != []
  }

  /** The exceptions raised by the modelled code, one constructor per cause. */
  datatype Error =
    | KeyError(key: string)            // `d[key]` on a dict without `key`
    | NotAMapping                      // `**x` or `.get` on a value that is not a dict
    | NotAString                       // `.replace` or `str.join` on a value that is not a str
    | IndexError                       // `xs[0]` or `xs[1]` on a list that is too short
    | NotIterable                      // `for x in v` on None, a bool or a number
    | UnpackError(found: nat)          // `[x] = xs` with `len(xs) != 1`
    | MalformedJson                    // `json.loads` / `response.json()` raised
    | UnknownFunction(name: string)    // a tool name outside the function mapping
    | BadArguments(name: string)       // keyword arguments that do not fit the signature
    | MissingRequiredAction            // `run.required_action` is None on `requires_action`
    | TooManyTokens(count: nat)        // the token-length guard of the first loader
    | Upstream                         // the embedding API or the vector store raised

  datatype Result<T> = Ok(value: T) | Err(error: Error)

  /** `[f(x) for x in xs]` where `f` may raise: the first exception, in list
      order, escapes; otherwise element i of the result is `f(xs[i])`. */
  function MapAll<A, B>(xs: seq<A>, f: A -> Result<B>): (res: Result<seq<B>>)
    ensures res.Ok? <==> forall i :: 0 <= i < |xs| ==> f(xs[i]).Ok?
    ensures res.Ok? ==> |res.value| == |xs| && forall i :: 0 <= i < |xs| ==> res.value[i] == f(xs[i]).value
    ensures res.Err? ==>
      exists i :: 0 <= i < |xs| && f(xs[i]) == Err(res.error) && forall j :: 0 <= j < i ==> f(xs[j]).Ok?
    decreases |xs|
  {
    if xs == [] then Ok([])
    else
      var init := xs[..|xs| - 1];
      assert forall i :: 0 <= i < |init| ==> init[i] == xs[i];
      match MapAll(init, f)
      case Err(e) => Err(e)
      case Ok(done) =>
        match f(xs[|xs| - 1])
        case Err(e) => Err(e)
        case Ok(y) => Ok(done + [y])
  }

  /** Once an element raises, the later ones do not change the outcome. */
  lemma {:induction false} MapAllStopsAtError<A, B>(xs: seq<A>, j: int, f: A -> Result<B>)
    requires 0 <= j <= |xs| && MapAll(xs[..j], f).Err?
    ensures MapAll(xs, f) == MapAll(xs[..j], f)
    decreases |xs| - j
  {
    if j < |xs| {
      assert xs[..j + 1][..j] == xs[..j];
      MapAllStopsAtError(xs, j + 1, f);
    } else {
      assert xs[..j] == xs;
    }
  }

  /** A prefix one element longer is the prefix with that element appended. */
  lemma PrefixSnoc<A>(xs: seq<A>, i: int)
    requires 0 <= i < |xs|
    ensures xs[..i + 1] == xs[..i] + [xs[i]]
  {
    assert forall k :: 0 <= k <= i ==> xs[..i + 1][k] == (xs[..i] + [xs[i]])[k];
  }

  /** The loop that computes `MapAll` one element at a time. */
  method MapEach<A, B>(xs: seq<A>, f: A -> Result<B>) returns (res: Result<seq<B>>)
    ensures res == MapAll(xs, f)
  {
    var done := [];
    var i := 0;
    while i < |xs|
      invariant 0 <= i <= |xs|
      invariant MapAll(xs[..i], f) == Ok(done)
    {
      assert xs[..i + 1][..i] == xs[..i] && xs[..i + 1][i] == xs[i];
      var y := f(xs[i]);
      if y.Err? {
        assert MapAll(xs[..i + 1], f) == Err(y.error);
        MapAllStopsAtError(xs, i + 1, f);
        return Err(y.error);
      }
      assert MapAll(xs[..i + 1], f) == Ok(done + [y.value]);
      done := done + [y.value];
      i := i + 1;
    }
    assert xs[..i] == xs;
    res := Ok(done);
  }

  /** Python's `str(v)`: a str is itself; every other value is rendered by the
      interpreter (`repr` stands for that rendering). */
  function Show(v: Value, repr: Value -> string): string {
    if v.Str? then v.s else repr(v)
  }
}
