// The conversation of RunToolLoop: what every call of the provider receives, and how the
// loop ends.
module ToolLoop {
  import opened Base
  import opened ToolCalls
  import opened ParallelTools

  const DEFAULT_ITERATIONS := 8

  // Items that the request or the provider supplied are opaque.
  datatype Item = Given(text: string) | FunctionOutput(result: ToolResult) | CustomOutput(result: ToolResult)

  // settings stands for the fields of the request that the loop never changes.
  datatype Request = Request(items: seq<Item>, messages: seq<string>, previous: string, settings: string)
  datatype Response = Response(id: string, output: seq<Item>, calls: seq<Call>)

  // What one Generate call does.
  datatype Answer = Answered(response: Response) | NoResponse | Refused(text: string)

  function OutputItem(r: ToolResult): Item { if r.custom then CustomOutput(r) else FunctionOutput(r) }

  function OutputItems(results: seq<ToolResult>): seq<Item> {
    seq(|results|, i requires 0 <= i < |results| => OutputItem(results[i]))
  }

  // What one round adds to the conversation: the response's own items, then one output
  // item per call, in call order.
  function RoundItems(tools: Registry, r: Response): seq<Item> { r.output + OutputItems(Results(tools, r.calls)) }

  function Conversation(tools: Registry, rounds: seq<Response>): seq<Item> {
    if rounds == [] then [] else Conversation(tools, rounds[..|rounds| - 1]) + RoundItems(tools, rounds[|rounds| - 1])
  }

  // The request of the Generate call that follows some rounds.
  function RequestAfter(tools: Registry, req: Request, rounds: seq<Response>): Request {
    if rounds == [] then req
    else Request(req.items + Conversation(tools, rounds), [], rounds[|rounds| - 1].id, req.settings)
  }

  predicate AsksForTools(a: Answer) { a.Answered? && a.response.calls != [] }

  // Every output item of a round is of the kind of its call.
  lemma ItemsMatchCalls(tools: Registry, r: Response)
    ensures var items := RoundItems(tools, r);
            && |items| == |r.output| + |r.calls| && items[..|r.output|] == r.output
            && forall i :: 0 <= i < |r.calls| ==>
                 var item := items[|r.output| + i];
                 item == if r.calls[i].custom then CustomOutput(ExecuteCall(tools, r.calls[i])) else FunctionOutput(ExecuteCall(tools, r.calls[i]))
  {
    hide Execute, ExecuteCall;
    forall i | 0 <= i < |r.calls| ensures ExecuteCall(tools, r.calls[i]).custom == r.calls[i].custom {
      ResultMatchesCall(tools, r.calls[i]);
    }
  }

  // Round k lies in the conversation between the rounds before it and those after it.
  lemma {:induction false} RoundIsInOrder(tools: Registry, rounds: seq<Response>, k: nat)
    requires k < |rounds|
    ensures Conversation(tools, rounds[..k]) + RoundItems(tools, rounds[k]) <= Conversation(tools, rounds)
  {
    hide RoundItems;
    var front := rounds[..|rounds| - 1];
    if k < |front| {
      RoundIsInOrder(tools, front, k);
      assert front[..k] == rounds[..k];
    } else {
      assert rounds[..k] == front;
    }
  }

  // A provider answers its calls from a list, whatever it is asked, and refuses beyond
  // its end; it keeps the requests it received.
  class Provider {
    const answers: seq<Answer>
    var received: seq<Request>

    constructor (answers: seq<Answer>)
      ensures this.answers == answers && received == []
    {
      this.answers, received := answers, [];
    }

    function AnswerTo(n: nat): Answer { if n < |answers| then answers[n] else Refused("no answer") }

    method Generate(req: Request) returns (a: Answer)
      modifies this
      ensures received == old(received) + [req] && a == AnswerTo(|old(received)|)
    {
      a := AnswerTo(|received|);
      received := received + [req];
    }
  }

  // The responses to the first n calls of a provider.
  function Heard(p: Provider, n: nat): seq<Response> {
    if n == 0 then []
    else Heard(p, n - 1) + if p.AnswerTo(n - 1).Answered? then [p.AnswerTo(n - 1).response] else []
  }

  method AppendOutputs(before: seq<Item>, results: seq<ToolResult>) returns (items: seq<Item>)
    ensures items == before + OutputItems(results)
  {
    items := before;
    for j := 0 to |results|
      invariant items == before + OutputItems(results[..j])
    {
      assert OutputItems(results[..j + 1]) == OutputItems(results[..j]) + [OutputItem(results[j])];
      items := items + [if results[j].custom then CustomOutput(results[j]) else FunctionOutput(results[j])];
    }
    assert results[..|results|] == results;
  }

  lemma FirstRequest(tools: Registry, req: Request)
    ensures RequestAfter(tools, req, []) == req
  {
  }

  // The request after one more round.
  function Continued(tools: Registry, current: Request, resp: Response): Request {
    Request(current.items + RoundItems(tools, resp), [], resp.id, current.settings)
  }

  method PlayRound(current: Request, resp: Response, tools: Registry, parallel: bool, maxParallel: int) returns (next: Request)
    ensures next == Continued(tools, current, resp) && Extends(tools, current, resp, next)
  {
    hide Results, OutputItems;
    var results := ExecuteToolCalls(tools, resp.calls, parallel, maxParallel);
    var items := AppendOutputs(current.items + resp.output, results);
    assert items == current.items + (resp.output + OutputItems(results));
    next := Request(items, [], resp.id, current.settings);
  }

  // RunToolLoop with a provider that has not been called yet.
  method RunToolLoop(p: Provider, req: Request, tools: Registry, maxIterations: int, parallel: bool, maxParallel: int)
    returns (r: Result<Response, string>)
    requires p.received == []
    modifies p
    ensures var max, n := if maxIterations <= 0 then 8 else maxIterations, |p.received|;
            && 1 <= n <= max
            // Every call but the last was answered with tool calls, ...
            && (forall k :: 0 <= k < n - 1 ==> AsksForTools(p.AnswerTo(k)))
            // ... every call received the conversation up to then, ...
            && (forall k :: 0 <= k < n ==> p.received[k] == RequestAfter(tools, req, Heard(p, k)))
            // ... which is the request before it and one more round, ...
            && p.received[0] == req
            && (forall k :: 0 < k < n ==> Extends(tools, p.received[k - 1], p.AnswerTo(k - 1).response, p.received[k]))
            // ... and the last answer decides the result.
            && (var last := p.AnswerTo(n - 1);
                if AsksForTools(last) then n == max && r == Err("tool loop exceeded")
                else match last
                  case Answered(response) => r == Ok(response) && response.calls == []
                  case NoResponse => r == Err("provider returned nil response")
                  case Refused(text) => r == Err(text))
  {
    hide RequestAfter, Continued, Heard, Extends, Provider.AnswerTo;
    assert Heard(p, 0) == [] by { HeardNone(p); }
    assert RequestAfter(tools, req, []) == req by { FirstRequest(tools, req); }
    var max := if maxIterations <= 0 then DEFAULT_ITERATIONS else maxIterations;
    var current := req;
    for i := 0 to max
      invariant |p.received| == i
      invariant forall k :: 0 <= k < i ==> AsksForTools(p.AnswerTo(k))
      invariant forall k :: 0 <= k < i ==> p.received[k] == RequestAfter(tools, req, Heard(p, k))
      invariant current == RequestAfter(tools, req, Heard(p, i))
      invariant i > 0 ==> p.received[0] == req
      invariant forall k :: 0 < k < i ==> Extends(tools, p.received[k - 1], p.AnswerTo(k - 1).response, p.received[k])
      invariant if i == 0 then current == req else Extends(tools, p.received[i - 1], p.AnswerTo(i - 1).response, current)
    {
      var a := p.Generate(current);
      if a.Refused? {
        return Err(a.text);
      }
      if a.NoResponse? {
        return Err("provider returned nil response");
      }
      var resp := a.response;
      if |resp.calls| == 0 {
        return Ok(resp);
      }
      HeardNext(p, i);
      NextRequest(tools, req, Heard(p, i), resp);
      current := PlayRound(current, resp, tools, parallel, maxParallel);
    }
    return Err("tool loop exceeded");
  }

  // next asks for the answer after one more round: the items grow by the response and by
  // the outputs of its calls, the messages were already given, and the response is named.
  predicate Extends(tools: Registry, before: Request, resp: Response, next: Request) {
    && next.items == before.items + RoundItems(tools, resp)
    && next.messages == [] && next.previous == resp.id && next.settings == before.settings
  }

  lemma HeardNone(p: Provider)
    ensures Heard(p, 0) == []
  {
  }

  lemma HeardNext(p: Provider, n: nat)
    requires p.AnswerTo(n).Answered?
    ensures Heard(p, n + 1) == Heard(p, n) + [p.AnswerTo(n).response]
  {
  }

  lemma NextRequest(tools: Registry, req: Request, rounds: seq<Response>, resp: Response)
    ensures RequestAfter(tools, req, rounds + [resp]) == Continued(tools, RequestAfter(tools, req, rounds), resp)
  {
    hide RoundItems;
    assert (rounds + [resp])[..|rounds|] == rounds;
    assert req.items + (Conversation(tools, rounds) + RoundItems(tools, resp)) == (req.items + Conversation(tools, rounds)) + RoundItems(tools, resp);
    assert rounds == [] ==> req.items + Conversation(tools, rounds) == req.items;
  }
}
