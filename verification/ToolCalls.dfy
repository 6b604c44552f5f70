// Running one tool call, and a list of calls one after the other.
module ToolCalls {
  import opened Base

  datatype Call = Call(id: string, name: string, arguments: string, custom: bool)
  datatype ToolResult = ToolResult(callId: string, name: string, output: string, error: string, custom: bool)

  // A handler that depends only on the call: it returns a result, returns an error, or panics.
  datatype HandlerEnd = Returned(result: ToolResult) | Errored(text: string) | Panicked(text: string)
  type Handler = Call -> HandlerEnd

  // A registered handler may be nil.
  type Registry = map<string, Option<Handler>>

  function Failed(call: Call, text: string): ToolResult { ToolResult(call.id, call.name, "", text, call.custom) }

  // ToolRegistry.Execute: a result and perhaps an error.
  function Execute(tools: Registry, call: Call): (ToolResult, Option<string>) {
    if call.name !in tools then (ToolResult("", "", "", "", false), Some("tool " + call.name + " is not registered"))
    else if tools[call.name].None? then (ToolResult("", "", "", "", false), Some("tool " + call.name + " handler is nil"))
    else
      match tools[call.name].value(call)
      case Panicked(text) =>
        var message := "tool " + call.name + " panic: " + text;
        (Failed(call, message), Some(message))
      case Errored(text) => (Failed(call, text), Some(text))
      case Returned(result) =>
        (result.(callId := if result.callId == "" then call.id else result.callId,
                 name := if result.name == "" then call.name else result.name,
                 custom := call.custom), None)
  }

  // executeToolCall.
  function ExecuteCall(tools: Registry, call: Call): ToolResult {
    var (result, err) := Execute(tools, call);
    if err.Some? && result.error == "" then Failed(call, err.value) else result
  }

  // A handler that is there and returned a result for the call.
  predicate Succeeds(tools: Registry, call: Call) {
    call.name in tools && tools[call.name].Some? && tools[call.name].value(call).Returned?
  }

  // A result always carries the kind of its call, and its id and name unless a handler
  // that succeeded chose others. Whatever else happened is the error of the result: that
  // there is no handler, what the handler reported, or what it panicked with.
  lemma ResultMatchesCall(tools: Registry, call: Call)
    ensures var r := ExecuteCall(tools, call);
            && r.custom == call.custom
            && (Succeeds(tools, call) ==>
                  var own := tools[call.name].value(call).result;
                  && r.output == own.output && r.error == own.error
                  && r.callId == (if own.callId != "" then own.callId else call.id)
                  && r.name == (if own.name != "" then own.name else call.name))
            && (!Succeeds(tools, call) ==> r.callId == call.id && r.name == call.name && r.output == "")
            && (call.name !in tools ==> r.error == "tool " + call.name + " is not registered")
            && (call.name in tools && tools[call.name].None? ==> r.error == "tool " + call.name + " handler is nil")
            && (call.name in tools && tools[call.name].Some? && !Succeeds(tools, call) ==>
                  match tools[call.name].value(call)
                  case Errored(text) => r.error == text
                  case Panicked(text) => r.error == "tool " + call.name + " panic: " + text
                  case Returned(_) => false)
  {
  }

  function Results(tools: Registry, calls: seq<Call>): seq<ToolResult> {
    seq(|calls|, i requires 0 <= i < |calls| => ExecuteCall(tools, calls[i]))
  }

  // The sequential branch of executeToolCalls.
  method ExecuteInOrder(tools: Registry, calls: seq<Call>) returns (results: array<ToolResult>)
    ensures fresh(results) && results[..] == Results(tools, calls)
  {
    hide ExecuteCall;
    results := new ToolResult[|calls|](_ => ToolResult("", "", "", "", false));
    for i := 0 to |calls|
      invariant forall k :: 0 <= k < i ==> results[k] == ExecuteCall(tools, calls[k])
    {
      results[i] := ExecuteCall(tools, calls[i]);
    }
  }
}
