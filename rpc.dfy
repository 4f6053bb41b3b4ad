/** The request envelope of the enclaved RPC server. Requests arrive as
    events of the RPC kind whose content is an encrypted JSON request; each
    event id is handled at most once, and every event handled gets exactly
    one reply, addressed to its sender, carrying either a result or an
    error message. Decryption and JSON decoding are one oracle, and the
    derived server's `launch` is a parameter. */
module Rpc {
  import opened Common
  import Consts

  /** An incoming event: its id, author, kind and encrypted content. */
  datatype Event = Event(id: string, pubkey: string, kind: int, content: string)

  /** The fields read from the decrypted request; the empty string and
      `None` stand for a missing or falsy value. */
  datatype Payload<P> = Payload(id: string, methodName: string, params: Option<P>)

  /** The request passed to the handlers: the sender, the event id, the
      method and its parameters. */
  datatype Request<P> = Request(pubkey: string, id: string, methodName: string, params: P)

  /** What a reply's `result` holds: `"pong"`, or what `launch` answers. */
  datatype Body<B> = Pong | Launched(value: B)

  datatype Reply<B> = Reply(id: string, result: Option<Body<B>>, error: Option<string>)

  /** The signed reply event, before encryption of the reply. */
  datatype Outgoing<B> = Outgoing(pubkey: string, kind: int, createdAt: int, tags: seq<seq<string>>, reply: Reply<B>)

  /** The outside world of one event: the server's own pubkey, decryption
      followed by JSON decoding (an exception gives its message), the
      derived server's `launch` and the clock. */
  datatype Env<!P, B> = Env(
    pubkey: string,
    decode: Event -> Result<Payload<P>>,
    launch: Request<P> -> Result<B>,
    now: int)

  /** The base class's `launch`, which a server must override. */
  function BaseLaunch<P, B>(req: Request<P>): Result<B>
  {
    Err("Method not implemented")
  }

  predicate Complete<P>(p: Payload<P>)
  {
    p.id != "" && p.methodName != "" && p.params.Some?
  }

  /** `isValidReq`: every method is accepted (the per-method checks are
      commented out in the source). */
  predicate IsValidReq<P>(req: Request<P>)
  {
    true
  }

  /** A reply's id: the request's own id, except that `ping` answers with
      the event id; a request that could not be decoded keeps the empty id. */
  function Respond<P, B>(e: Event, env: Env<P, B>): (r: Reply<B>)
  {
    match env.decode(e)
    case Err(m) => Reply("", None, Some(m))
    case Ok(p) =>
      if !Complete(p) then Reply("", None, Some("Bad request"))
      else
        var req := Request(e.pubkey, e.id, p.methodName, p.params.value);
        if !IsValidReq(req) then Reply(p.id, None, Some("Invalid request"))
        else if p.methodName == "ping" then Reply(e.id, Some(Pong), None)
        else if p.methodName == "launch" then
          match env.launch(req)
          case Ok(b) => Reply(p.id, Some(Launched(b)), None)
          case Err(m) => Reply(p.id, None, Some(m))
        else Reply(p.id, None, Some("Invalid method"))
  }

  /** The request a complete payload becomes. */
  function RequestOf<P>(e: Event, p: Payload<P>): Request<P>
    requires Complete(p)
  {
    Request(e.pubkey, e.id, p.methodName, p.params.value)
  }

  /** A reply carries an error exactly when decoding failed, the request
      was incomplete, the method is unknown or `launch` failed; it never
      carries both a result and an error. */
  lemma RespondFails<P, B>(e: Event, env: Env<P, B>)
    ensures var r := Respond(e, env);
      r.error.Some? <==>
        (env.decode(e).Err?
         || !Complete(env.decode(e).value)
         || (var p := env.decode(e).value;
             p.methodName != "ping" && (p.methodName != "launch" || env.launch(RequestOf(e, p)).Err?)))
    ensures var r := Respond(e, env); r.error.Some? <==> r.result.None?
  {
  }

  /** An incomplete request is answered "Bad request" with an empty id. */
  lemma RespondBadRequest<P, B>(e: Event, env: Env<P, B>)
    requires env.decode(e).Ok? && !Complete(env.decode(e).value)
    ensures Respond(e, env) == Reply("", None, Some("Bad request"))
  {
  }

  /** `ping` answers "pong" under the event id, whatever the request's id. */
  lemma RespondPing<P, B>(e: Event, env: Env<P, B>)
    requires env.decode(e).Ok? && Complete(env.decode(e).value) && env.decode(e).value.methodName == "ping"
    ensures Respond(e, env) == Reply(e.id, Some(Pong), None)
  {
  }

  /** `launch` goes to the derived server with the sender and event id;
      the reply keeps the request's id. */
  lemma RespondLaunch<P, B>(e: Event, env: Env<P, B>)
    requires env.decode(e).Ok? && Complete(env.decode(e).value) && env.decode(e).value.methodName == "launch"
    ensures var p := env.decode(e).value;
      var req := Request(e.pubkey, e.id, "launch", p.params.value);
      Respond(e, env) == match env.launch(req)
        case Ok(b) => Reply(p.id, Some(Launched(b)), None)
        case Err(m) => Reply(p.id, None, Some(m))
  {
  }

  /** Any other method is refused as "Invalid method". */
  lemma RespondInvalidMethod<P, B>(e: Event, env: Env<P, B>)
    requires env.decode(e).Ok? && Complete(env.decode(e).value)
    requires env.decode(e).value.methodName != "ping" && env.decode(e).value.methodName != "launch"
    ensures Respond(e, env) == Reply(env.decode(e).value.id, None, Some("Invalid method"))
  {
  }

  /** Without an override, `launch` is refused as not implemented. */
  lemma BaseServerRefusesLaunch<P, B>(e: Event, env: Env<P, B>)
    requires env.decode(e).Ok? && Complete(env.decode(e).value) && env.decode(e).value.methodName == "launch"
    ensures Respond(e, env.(launch := (req: Request<P>) => BaseLaunch<P, B>(req))).error == Some("Method not implemented")
  {
  }

  datatype Processed<B> = Processed(done: set<string>, out: Option<Outgoing<B>>)

  /** `process`: an event of another kind is ignored; an id seen before is
      ignored; otherwise the id is recorded before the request is handled,
      and a reply tagged with the sender is returned. */
  function ProcessEvent<P, B>(done: set<string>, e: Event, env: Env<P, B>): (r: Processed<B>)
    ensures r.done == if e.kind == Consts.KindEnclavedRpc then done + {e.id} else done
    ensures r.out.Some? <==> e.kind == Consts.KindEnclavedRpc && e.id !in done
    ensures r.out.Some? ==>
      r.out.value.kind == Consts.KindEnclavedRpc && r.out.value.tags == [["p", e.pubkey]]
      && r.out.value.pubkey == env.pubkey && r.out.value.reply == Respond(e, env)
  {
    if e.kind != Consts.KindEnclavedRpc then Processed(done, None)
    else if e.id in done then Processed(done, None)
    else
      var res := Respond(e, env);
      Processed(done + {e.id}, Some(Outgoing(env.pubkey, Consts.KindEnclavedRpc, env.now, [["p", e.pubkey]], res)))
  }

  /** Once an RPC event was processed, failed or not, a repeat of its id
      is ignored, whatever its content. */
  lemma ProcessAtMostOnce<P, B>(done: set<string>, e: Event, env: Env<P, B>, e2: Event, env2: Env<P, B>)
    requires e.kind == Consts.KindEnclavedRpc && e2.id == e.id
    ensures ProcessEvent(ProcessEvent(done, e, env).done, e2, env2) == Processed(ProcessEvent(done, e, env).done, None)
  {
  }

  datatype Batch<B> = Batch(done: set<string>, outs: seq<Option<Outgoing<B>>>)

  /** A stream of events processed in order, one output per event. */
  function ProcessAll<P, B>(done: set<string>, es: seq<Event>, env: Env<P, B>): (r: Batch<B>)
    ensures |r.outs| == |es|
    ensures done <= r.done
    decreases |es|
  {
    if es == [] then Batch(done, [])
    else
      var p := ProcessEvent(done, es[0], env);
      var rest := ProcessAll(p.done, es[1..], env);
      Batch(rest.done, [p.out] + rest.outs)
  }

  predicate SeenBefore(es: seq<Event>, j: int)
    requires 0 <= j < |es|
  {
    exists i :: 0 <= i < j && es[i].kind == Consts.KindEnclavedRpc && es[i].id == es[j].id
  }

  /** In a stream, an event is answered exactly when it is of the RPC kind,
      its id was not recorded before the stream and no earlier RPC event of
      the stream had it; hence no id is answered twice. */
  lemma {:induction false} ProcessAllAnswersFirstSeen<P, B>(done: set<string>, es: seq<Event>, env: Env<P, B>, j: int)
    requires 0 <= j < |es|
    ensures ProcessAll(done, es, env).outs[j].Some? <==>
      es[j].kind == Consts.KindEnclavedRpc && es[j].id !in done && !SeenBefore(es, j)
    decreases |es|
  {
    var p := ProcessEvent(done, es[0], env);
    var rest := ProcessAll(p.done, es[1..], env);
    assert ProcessAll(done, es, env).outs == [p.out] + rest.outs;
    if j > 0 {
      ProcessAllAnswersFirstSeen(p.done, es[1..], env, j - 1);
      assert es[1..][j - 1] == es[j];
      if SeenBefore(es[1..], j - 1) {
        var i :| 0 <= i < j - 1 && es[1..][i].kind == Consts.KindEnclavedRpc && es[1..][i].id == es[1..][j - 1].id;
        assert es[i + 1] == es[1..][i];
      }
      if SeenBefore(es, j) && !SeenBefore(es[1..], j - 1) {
        var i :| 0 <= i < j && es[i].kind == Consts.KindEnclavedRpc && es[i].id == es[j].id;
        if i > 0 {
          assert es[1..][i - 1] == es[i];
        }
      }
    }
  }

  /** No two outputs of a stream answer the same event id. */
  lemma RepliesOnce<P, B>(done: set<string>, es: seq<Event>, env: Env<P, B>, i: int, j: int)
    requires 0 <= i < j < |es| && es[i].id == es[j].id
    ensures !(ProcessAll(done, es, env).outs[i].Some? && ProcessAll(done, es, env).outs[j].Some?)
  {
    ProcessAllAnswersFirstSeen(done, es, env, i);
    ProcessAllAnswersFirstSeen(done, es, env, j);
  }

  /** `EnclavedServer`: the set of event ids already processed. */
  class EnclavedServer {
    var done: set<string>

    constructor()
      ensures done == {}
    {
      done := {};
    }

    method Process<P, B>(e: Event, env: Env<P, B>) returns (out: Option<Outgoing<B>>)
      modifies this
      ensures Processed(done, out) == ProcessEvent(old(done), e, env)
    {
      if e.kind != Consts.KindEnclavedRpc {
        return None;
      }
      if e.id in done {
        return None;
      }
      done := done + {e.id};
      var res := Respond(e, env);
      out := Some(Outgoing(env.pubkey, Consts.KindEnclavedRpc, env.now, [["p", e.pubkey]], res));
    }
  }
}
