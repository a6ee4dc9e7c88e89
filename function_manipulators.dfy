/** The `assert_proper_input` decorator: it finds one named argument of a
    call, by keyword or else by its position in the wrapped function's
    signature, runs a checker on it, and only then calls the function. */
module FunctionManipulators {
  import opened Wrappers
  import opened PyErrors

  /** A Python call: positional arguments and keyword arguments. */
  datatype Call<V> = Call(args: seq<V>, kwargs: map<string, V>)

  /** `__find_arg_index`: the position of the first parameter called
      `name` in the signature `params`, or `None`. */
  function FindArgIndex(params: seq<string>, name: string): (r: Option<nat>)
    ensures r.None? <==> name !in params
    ensures r.Some? ==> r.value < |params| && params[r.value] == name
    ensures r.Some? ==> forall k :: 0 <= k < r.value ==> params[k] != name
  {
    if params == [] then None
    else if params[0] == name then Some(0)
    else
      match FindArgIndex(params[1..], name)
      case None => None
      case Some(k) => Some(k + 1)
  }

  function NotProvided(name: string): PyError {
    ValueError(name + " argument is not provided")
  }

  /** The argument the wrapper hands to the checker: the keyword argument
      when there is one, otherwise the positional argument at the
      parameter's position; a ValueError when neither exists. */
  function ResolveArg<V>(params: seq<string>, call: Call<V>, name: string): (r: Result<V, PyError>)
    ensures name in call.kwargs ==> r == Success(call.kwargs[name])
    ensures name !in call.kwargs ==>
      (r.Success? <==> exists k :: 0 <= k < |params| && k < |call.args| && params[k] == name
                                  && forall k' :: 0 <= k' < k ==> params[k'] != name)
    ensures name !in call.kwargs && r.Success? ==>
      exists k :: 0 <= k < |params| && k < |call.args| && params[k] == name && r.value == call.args[k]
    ensures r.Failure? ==> r.error == NotProvided(name)
  {
    if name in call.kwargs then Success(call.kwargs[name])
    else
      match FindArgIndex(params, name)
      case None => Failure(NotProvided(name))
      case Some(k) =>
        if |call.args| <= k then Failure(NotProvided(name))
        else Success(call.args[k])
  }

  /** The wrapped function `assert_proper_input(name, checker)(func)`
      applied to `call`, where `params` is `func`'s signature. The checker
      and the function report a raised exception as a failure. */
  function Wrapper<V, R>(params: seq<string>, name: string, checker: V -> Outcome<PyError>,
                         func: Call<V> -> Result<R, PyError>, call: Call<V>): (r: Result<R, PyError>)
    ensures var arg := ResolveArg(params, call, name);
      arg.Failure? ==> r == Failure(NotProvided(name))
    ensures var arg := ResolveArg(params, call, name);
      arg.Success? && checker(arg.value).Fail? ==> r == Failure(checker(arg.value).error)
    ensures var arg := ResolveArg(params, call, name);
      arg.Success? && checker(arg.value).Pass? ==> r == func(call)
  {
    match ResolveArg(params, call, name)
    case Failure(e) => Failure(e)
    case Success(arg) =>
      match checker(arg)
      case Fail(e) => Failure(e)
      case Pass => func(call)
  }

  /** A rejected call never reaches the function: two different functions
      wrapped by the same guard give the same failure. */
  lemma RejectionIgnoresFunc<V, R>(params: seq<string>, name: string, checker: V -> Outcome<PyError>,
                                   f: Call<V> -> Result<R, PyError>, g: Call<V> -> Result<R, PyError>, call: Call<V>)
    requires ResolveArg(params, call, name).Failure? || checker(ResolveArg(params, call, name).value).Fail?
    ensures Wrapper(params, name, checker, f, call) == Wrapper(params, name, checker, g, call)
    ensures Wrapper(params, name, checker, f, call).Failure?
  {
  }

  /** The guarded argument is the first parameter of that name: without a
      keyword of that name the argument at that position is checked, and a
      call too short to reach it is refused. */
  lemma {:induction false} ResolvesFirstPosition<V>(params: seq<string>, name: string, args: seq<V>, kwargs: map<string, V>, k: nat)
    requires k < |params| && params[k] == name
    requires forall j :: 0 <= j < k ==> params[j] != name
    ensures FindArgIndex(params, name) == Some(k)
    ensures name !in kwargs ==>
      ResolveArg(params, Call(args, kwargs), name)
        == if k < |args| then Success(args[k]) else Failure(NotProvided(name))
  {
    if k > 0 {
      ResolvesFirstPosition(params[1..], name, args, kwargs, k - 1);
    }
  }
}
