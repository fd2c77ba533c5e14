/** The single-shot request handler of the smart contract process: one request
    is read, dispatched on its method name against a one-field counter state,
    and answered with at most one event, exactly one response and an exit code
    (unless the counter overflows).

    Parsing, the standard streams and process termination are abstracted away:
    the input arrives already classified, and everything the process would
    write or return is collected in one `Outcome` value. */
module SmartContract {
  import opened Wrappers

  /** Largest value of Rust's `u64`. */
  const U64_MAX: int := 0xFFFF_FFFF_FFFF_FFFF

  type U64 = x: int | 0 <= x <= U64_MAX

  /** The contract's whole state: a single unsigned 64-bit counter. */
  datatype ContractState = ContractState(counter: U64)

  /** The state every invocation starts from before a request supplies one. */
  const DefaultState: ContractState := ContractState(0)

  /** A request that deserialized successfully; `methodName` is its `method`
      field. Its `params` field is read by no method, so it is not kept; it is
      required, so a line without it is `Malformed`. */
  datatype Request = Request(methodName: string, state: Option<ContractState>)

  /** What the process finds on its standard input, after deserialization:
      no line at all (end of input or a read error), a line that does not
      deserialize into a `Request`, or a request. */
  datatype Input = NoInput | Malformed | Parsed(request: Request)

  /** The `result` values a response can carry. */
  datatype Json = Null | StringList(items: seq<string>)

  /** An event's payload: a snapshot of the state, or an error message. */
  datatype EventData = StateSnapshot(snapshot: ContractState) | Message(text: string)

  /** The notification written to the error stream. */
  datatype Event = Event(name: string, data: EventData)

  /** The line written to the output stream. */
  datatype Response = Response(result: Json, state: ContractState)

  /** Everything one invocation produces. `Exit` is a run that writes its event
      (if any), its response and exits with `code`. `CounterOverflow` is an
      `increment` on a counter already at `U64_MAX`: what happens then depends
      on how the program was built, and the model does not choose. */
  datatype Outcome =
    | Exit(event: Option<Event>, response: Response, code: int)
    | CounterOverflow(state: ContractState)

  const NoInputMessage: string := "No input received"
  const InvalidJsonMessage: string := "Invalid JSON input"
  const UnknownMethodMessage: string := "Unknown method"

  /** The method names the dispatcher accepts (exact, case-sensitive match). */
  predicate Recognized(methodName: string) {
    methodName == "initialize" || methodName == "increment" || methodName == "list_methods"
  }

  /** The method names announced by `list_methods`. Every one of them is
      accepted by the dispatcher; `list_methods`
      itself is accepted but not announced. */
  function ListMethods(): (r: seq<string>)
    ensures forall i :: 0 <= i < |r| ==> Recognized(r[i]) && r[i] != "list_methods"
    ensures forall i, j :: 0 <= i < j < |r| ==> r[i] != r[j]
    ensures "initialize" in r && "increment" in r
  {
    ["initialize", "increment"]
  }

  /** The state dispatch starts from: the request's own state when it carries
      one, replacing the default wholesale, and the default otherwise. */
  function ResolveState(request: Request): (s: ContractState)
    ensures request.state.Some? ==> s == request.state.value
    ensures request.state.None? ==> s.counter == 0
  {
    if request.state.Some? then request.state.value else DefaultState
  }

  /** The outcome of a failure before dispatch: an `Error` event with the
      given message, a null result with the default state, exit code 1. */
  function InputFailure(message: string): (o: Outcome)
    ensures o.Exit? && o.code == 1 && o.response.state == DefaultState
    ensures o.response.result == Null && o.event == Some(Event("Error", Message(message)))
  {
    Exit(Some(Event("Error", Message(message))), Response(Null, DefaultState), 1)
  }

  /** The method table applied to the resolved state `s`. */
  function Dispatch(methodName: string, s: ContractState): (o: Outcome)
    // initialize: counter 0 whatever it was, null result, `Initialized` with the new state
    ensures methodName == "initialize" ==>
      o.Exit? && o.code == 0 && o.response == Response(Null, ContractState(0)) &&
      o.event == Some(Event("Initialized", StateSnapshot(o.response.state)))
    // increment: the counter goes up by one, unless it is already at the top of u64
    ensures methodName == "increment" ==> (o.CounterOverflow? <==> s.counter == U64_MAX)
    ensures methodName == "increment" && o.CounterOverflow? ==> o.state == s
    ensures methodName == "increment" && o.Exit? ==>
      o.code == 0 && o.response.result == Null && o.response.state.counter == s.counter + 1 &&
      o.event == Some(Event("CounterIncremented", StateSnapshot(o.response.state)))
    // list_methods: the fixed listing, state untouched, no event
    ensures methodName == "list_methods" ==>
      o == Exit(None, Response(StringList(["initialize", "increment"]), s), 0)
    // anything else: an `Unknown method` error, state untouched
    ensures !Recognized(methodName) ==>
      o == Exit(Some(Event("Error", Message("Unknown method"))), Response(Null, s), 1)
  {
    if methodName == "initialize" then
      var t := s.(counter := 0);
      Exit(Some(Event("Initialized", StateSnapshot(t))), Response(Null, t), 0)
    else if methodName == "increment" then
      if s.counter == U64_MAX then CounterOverflow(s)
      else
        var t := s.(counter := s.counter + 1);
        Exit(Some(Event("CounterIncremented", StateSnapshot(t))), Response(Null, t), 0)
    else if methodName == "list_methods" then
      Exit(None, Response(StringList(ListMethods()), s), 0)
    else
      Exit(Some(Event("Error", Message(UnknownMethodMessage))), Response(Null, s), 1)
  }

  /** One invocation of the process, from its classified input to its outcome. */
  function Run(input: Input): (o: Outcome)
    // the two input failures answer with the default state
    ensures input.NoInput? ==>
      o == Exit(Some(Event("Error", Message("No input received"))), Response(Null, ContractState(0)), 1)
    ensures input.Malformed? ==>
      o == Exit(Some(Event("Error", Message("Invalid JSON input"))), Response(Null, ContractState(0)), 1)
    // exit code 0 exactly for a parsed request naming a recognised method
    ensures o.Exit? ==> (o.code == 0 <==> input.Parsed? && Recognized(input.request.methodName))
    ensures o.Exit? ==> o.code == 0 || o.code == 1
    // every failure is reported by an `Error` event and a null result
    ensures o.Exit? && o.code == 1 ==>
      o.event.Some? && o.event.value.name == "Error" && o.event.value.data.Message? &&
      o.response.result == Null
    // an event carrying a state carries the state the response reports
    ensures o.Exit? && o.event.Some? && o.event.value.data.StateSnapshot? ==>
      o.event.value.data.snapshot == o.response.state
    // only `increment` can overflow, and only from the largest counter
    ensures o.CounterOverflow? <==>
      input.Parsed? && input.request.methodName == "increment" &&
      ResolveState(input.request).counter == U64_MAX
    // methods other than the two mutating ones pass the resolved state through
    ensures input.Parsed? && input.request.methodName != "initialize" && input.request.methodName != "increment" ==>
      o.Exit? && o.response.state == ResolveState(input.request)
  {
    match input
    case NoInput => InputFailure(NoInputMessage)
    case Malformed => InputFailure(InvalidJsonMessage)
    case Parsed(request) => Dispatch(request.methodName, ResolveState(request))
  }

  /** The process's entry point, step by step: a local state that starts at
      the default, is replaced by the request's state when one is given, and
      is then reset or incremented in place. It returns early on each input
      failure and on overflow; each dispatch arm ends the method. */
  method HandleRequest(input: Input) returns (o: Outcome)
    ensures o == Run(input)
  {
    var state := DefaultState;
    if input.NoInput? {
      o := Exit(Some(Event("Error", Message(NoInputMessage))), Response(Null, state), 1);
      return;
    }
    if input.Malformed? {
      o := Exit(Some(Event("Error", Message(InvalidJsonMessage))), Response(Null, state), 1);
      return;
    }
    var request := input.request;
    if request.state.Some? {
      state := request.state.value;
    }
    match request.methodName {
      case "initialize" =>
        state := state.(counter := 0);
        o := Exit(Some(Event("Initialized", StateSnapshot(state))), Response(Null, state), 0);
      case "increment" =>
        if state.counter == U64_MAX {
          o := CounterOverflow(state);
          return;
        }
        state := state.(counter := state.counter + 1);
        o := Exit(Some(Event("CounterIncremented", StateSnapshot(state))), Response(Null, state), 0);
      case "list_methods" =>
        var methods := ListMethods();
        o := Exit(None, Response(StringList(methods), state), 0);
      case _ =>
        o := Exit(Some(Event("Error", Message(UnknownMethodMessage))), Response(Null, state), 1);
    }
  }
}
