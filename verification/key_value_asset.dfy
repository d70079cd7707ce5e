/**
 The key/value asset chaincode of example1/example1.go. The world state maps
 each key to the string stored under it; `Init` and `set` write one key,
 `get` reads one, and `Invoke` routes a call by its function name.
 Arguments arrive as the list of strings the host hands the chaincode.
 */
module KeyValueAsset {
  import opened Ledger

  type WorldState = map<string, string>

  /** The errors the chaincode reports, one per `fmt.Errorf`/`shim.Error` */
  datatype AssetError =
    | ExpectedKeyAndValue
    | CreateFailed(key: string)
    | SetFailed(key: string)
    | ExpectedKey
    | GetFailed(key: string)
    | AssetNotFound(key: string)
  {
    /** The text the chaincode puts in its error; `hostError` is the host's
        own description of a failed read. */
    function Message(hostError: string): string {
      match this
      case ExpectedKeyAndValue => "Incorrect arguments. Expecting a key and a value"
      case CreateFailed(key) => "Failed to create asset: " + key
      case SetFailed(key) => "Failed to set asset: " + key
      case ExpectedKey => "Incorrect arguments. Expecting a key"
      case GetFailed(key) => "Failed to get asset: " + key + " with error: " + hostError
      case AssetNotFound(key) => "Asset not found: " + key
    }
  }

  /** The peer response: `shim.Success(payload)` or `shim.Error(message)`.
      `Init`'s `shim.Success(nil)` carries the empty payload. */
  datatype Response = Ok(payload: string) | Error(reason: AssetError)

  /** `Init`: store `args[1]` under `args[0]` */
  function Init(args: seq<string>, state: WorldState, host: HostFaults): (t: Step<Response, string>)
    ensures |args| != 2 ==> t == Step(Error(ExpectedKeyAndValue), state)
    ensures |args| == 2 && host.writeFails ==> t == Step(Error(CreateFailed(args[0])), state)
    ensures t.out.Ok? <==> |args| == 2 && !host.writeFails
    ensures t.out.Ok? ==> t.out.payload == ""
                          && args[0] in t.state && t.state[args[0]] == args[1]
                          && SameExcept(state, t.state, args[0])
  {
    if |args| != 2 then Step(Error(ExpectedKeyAndValue), state)
    else if host.writeFails then Step(Error(CreateFailed(args[0])), state)
    else Step(Ok(""), state[args[0] := args[1]])
  }

  /** `set`: store `args[1]` under `args[0]` and return it */
  function Set(args: seq<string>, state: WorldState, host: HostFaults): (t: Step<Result<string, AssetError>, string>)
    ensures |args| != 2 ==> t == Step(Failure(ExpectedKeyAndValue), state)
    ensures |args| == 2 && host.writeFails ==> t == Step(Failure(SetFailed(args[0])), state)
    ensures t.out.Success? <==> |args| == 2 && !host.writeFails
    ensures t.out.Success? ==> t.out.value == args[1]
                               && args[0] in t.state && t.state[args[0]] == args[1]
                               && SameExcept(state, t.state, args[0])
  {
    if |args| != 2 then Step(Failure(ExpectedKeyAndValue), state)
    else if host.writeFails then Step(Failure(SetFailed(args[0])), state)
    else Step(Success(args[1]), state[args[0] := args[1]])
  }

  /** `get`: the value stored under `args[0]`. It never writes, so it
      returns no new state. */
  function Get(args: seq<string>, state: WorldState, host: HostFaults): (r: Result<string, AssetError>)
    ensures |args| != 1 ==> r == Failure(ExpectedKey)
    ensures |args| == 1 && host.readFails ==> r == Failure(GetFailed(args[0]))
    ensures |args| == 1 && !host.readFails && args[0] !in state ==> r == Failure(AssetNotFound(args[0]))
    ensures r.Success? <==> |args| == 1 && !host.readFails && args[0] in state
    ensures r.Success? ==> r.value == state[args[0]]
  {
    if |args| != 1 then Failure(ExpectedKey)
    else if host.readFails then Failure(GetFailed(args[0]))
    else if args[0] !in state then Failure(AssetNotFound(args[0]))
    else Success(state[args[0]])
  }

  /** How `Invoke` turns a handler's (result, error) into a peer response */
  function Respond(r: Result<string, AssetError>): (resp: Response)
    ensures resp.Ok? <==> r.Success?
    ensures r.Success? ==> resp.payload == r.value
    ensures r.Failure? ==> resp.reason == r.error
  {
    match r
    case Success(v) => Ok(v)
    case Failure(e) => Error(e)
  }

  /** `Invoke`: the function name "set" goes to `set`, every other name,
      the empty one included, goes to `get`. */
  function Invoke(fn: string, args: seq<string>, state: WorldState, host: HostFaults): (t: Step<Response, string>)
    ensures fn == "set" ==> t == Step(Respond(Set(args, state, host).out), Set(args, state, host).state)
    ensures fn != "set" ==> t == Step(Respond(Get(args, state, host)), state)
  {
    if fn == "set" then
      var step := Set(args, state, host);
      Step(Respond(step.out), step.state)
    else
      Step(Respond(Get(args, state, host)), state)
  }

  // ---------------------------------------------------------------------
  // Properties relating several calls
  // ---------------------------------------------------------------------

  /** Round trip: a value `set` under a key is what `get` returns for it */
  lemma SetThenGet(k: string, v: string, state: WorldState, writer: HostFaults, reader: HostFaults)
    requires !writer.writeFails && !reader.readFails
    ensures Get([k], Set([k, v], state, writer).state, reader) == Success(v)
  {
  }

  /** A key nobody wrote is reported as not found */
  lemma GetUnwritten(k: string, state: WorldState, host: HostFaults)
    requires !host.readFails && k !in state
    ensures Get([k], state, host) == Failure(AssetNotFound(k))
  {
  }

  /** Writing one key does not change what `get` returns for another */
  lemma SetLeavesOtherKeys(k: string, v: string, other: string, state: WorldState, writer: HostFaults, reader: HostFaults)
    requires other != k
    ensures Get([other], Set([k, v], state, writer).state, reader) == Get([other], state, reader)
  {
  }

  /** The last `set` of a key wins, and setting the same value twice is the
      same as setting it once */
  lemma SetLastWriteWins(k: string, v1: string, v2: string, state: WorldState, host: HostFaults)
    requires !host.writeFails
    ensures Set([k, v2], Set([k, v1], state, host).state, host).state == Set([k, v2], state, host).state
  {
  }

  /** `Init` leaves the world state exactly as `set` with the same arguments */
  lemma InitIsSet(args: seq<string>, state: WorldState, host: HostFaults)
    ensures Init(args, state, host).state == Set(args, state, host).state
    ensures Init(args, state, host).out.Ok? <==> Set(args, state, host).out.Success?
  {
  }

  /** Through `Invoke`: a "set" call followed by a call of any other name on
      the same key answers with the value that was set */
  lemma InvokeSetThenGet(k: string, v: string, fn: string, state: WorldState, host: HostFaults)
    requires fn != "set" && !host.writeFails && !host.readFails
    ensures var first := Invoke("set", [k, v], state, host);
            first.out == Ok(v)
            && Invoke(fn, [k], first.state, host) == Step(Ok(v), first.state)
  {
  }

  /** Only a "set" call with a key and a value can change the world state */
  lemma InvokeWritesOnlyOnSet(fn: string, args: seq<string>, state: WorldState, host: HostFaults)
    requires Invoke(fn, args, state, host).state != state
    ensures fn == "set" && |args| == 2 && !host.writeFails
    ensures SameExcept(state, Invoke(fn, args, state, host).state, args[0])
  {
  }
}
