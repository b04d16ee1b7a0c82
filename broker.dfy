/**
 * The RabbitMQ channel, as the clients see it: every call is a request that
 * the broker either answers or fails with an IOException.  The channel keeps
 * the log of requests with their outcomes; which outcome comes back is not
 * up to the caller.
 */
module Broker {
  import opened Base
  import opened Packet

  /** `BuiltinExchangeType` */
  datatype ExchangeType = Direct | Fanout | Topic | Headers

  datatype Request =
    | QueueDeclareServerNamed   // queueDeclare(): a fresh server-named queue
    | QueueDeclare(queue: string, durable: bool, exclusive: bool, autoDelete: bool)
    | ExchangeDeclare(exchange: string, kind: ExchangeType, durable: bool, autoDelete: bool)
    | QueueBind(queue: string, exchange: string, routingKey: string)
    | BasicConsume(queue: string, autoAck: bool)  // with the client's shared consumer
    | BasicPublish(exchange: string, routingKey: string, headers: map<string, Value>, body: seq<byte>)
    | QueueDelete(queue: string)

  datatype Outcome =
    | Failed                   // the call threw IOException
    | Done
    | DeclareOk(queue: string)  // the name of the server-named queue

  datatype Attempt = Attempt(request: Request, outcome: Outcome)

  /**
   * The attempts `log` holds are the requests of `plan` in order, each one made
   * only if the one before it did not fail.
   */
  predicate Follows(log: seq<Attempt>, plan: seq<Request>)
    decreases |plan|
  {
    if plan == [] then log == []
    else
      && |log| >= 1
      && log[0].request == plan[0]
      && (if log[0].outcome.Failed? then |log| == 1 else Follows(log[1..], plan[1..]))
  }

  /**
   * Follows, element by element: the attempts are a non-empty prefix of the
   * plan's requests (or both are empty), all but the last succeeded, and the
   * run stops short of the plan only because its last attempt failed.
   */
  lemma {:induction false} FollowsIntro(log: seq<Attempt>, plan: seq<Request>)
    requires plan == [] ==> log == []
    requires plan != [] ==> 1 <= |log| <= |plan|
    requires forall i :: 0 <= i < |log| ==> log[i].request == plan[i]
    requires forall i :: 0 <= i < |log| - 1 ==> !log[i].outcome.Failed?
    requires |log| < |plan| ==> log[|log| - 1].outcome.Failed?
    ensures Follows(log, plan)
    decreases |plan|
  {
    if plan != [] && !log[0].outcome.Failed? {
      FollowsIntro(log[1..], plan[1..]);
    }
  }

  class Channel {
    var log: seq<Attempt>

    constructor ()
      ensures log == []
    {
      log := [];
    }

    /** Any call but the server-named declaration; it succeeds or fails. */
    method Call(r: Request) returns (ok: bool)
      requires !r.QueueDeclareServerNamed?
      modifies this
      ensures log == old(log) + [Attempt(r, if ok then Done else Failed)]
    {
      ok := *;
      log := log + [Attempt(r, if ok then Done else Failed)];
    }

    /** `queueDeclare().queue`: the broker names the queue. */
    method DeclareServerNamed() returns (ok: bool, queue: string)
      modifies this
      ensures log == old(log) + [Attempt(QueueDeclareServerNamed, if ok then DeclareOk(queue) else Failed)]
    {
      ok := *;
      queue := *;
      log := log + [Attempt(QueueDeclareServerNamed, if ok then DeclareOk(queue) else Failed)];
    }
  }
}
