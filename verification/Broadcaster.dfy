/** In-memory notifications: each subscriber owns a bounded queue that drops its oldest message
    when it is full. */
module Broadcaster {

  type User = nat

  /** A JSON object; only its identity matters here. */
  datatype Message = Message(json: string)

  /** QUEUE_MAXSIZE. */
  const QUEUE_MAXSIZE: nat := 32

  /** A queue and its history: what was published to it, what its reader took, how many it lost. */
  datatype Feed = Feed(published: seq<Message>, taken: seq<Message>, queue: seq<Message>, dropped: nat)

  datatype Event = Publish(message: Message) | Get

  const EMPTY: Feed := Feed([], [], [], 0)

  function PutDropOldest(f: Feed, m: Message): Feed {
    if |f.queue| == QUEUE_MAXSIZE
    then Feed(f.published + [m], f.taken, f.queue[1..] + [m], f.dropped + 1)
    else Feed(f.published + [m], f.taken, f.queue + [m], f.dropped)
  }

  /** A reader waits while its queue is empty. */
  function Take(f: Feed): Feed {
    if f.queue == [] then f else f.(taken := f.taken + [f.queue[0]], queue := f.queue[1..])
  }

  function Step(f: Feed, e: Event): Feed {
    match e
    case Publish(m) => PutDropOldest(f, m)
    case Get => Take(f)
  }

  function Run(f: Feed, events: seq<Event>): Feed
    decreases |events|
  {
    if events == [] then f else Step(Run(f, events[..|events| - 1]), events[|events| - 1])
  }

  /** `part` is what is left of `all` when some messages are left out, in the same order. */
  predicate Subsequence(part: seq<Message>, all: seq<Message>)
    decreases |all|
  {
    if part == [] then true
    else if all == [] then false
    else
      var n := |all| - 1;
      || (part[|part| - 1] == all[n] && Subsequence(part[..|part| - 1], all[..n]))
      || Subsequence(part, all[..n])
  }

  lemma SubsequenceSkip(part: seq<Message>, all: seq<Message>, m: Message)
    requires Subsequence(part, all)
    ensures Subsequence(part, all + [m])
  {
    assert (all + [m])[..|all|] == all;
  }

  lemma SubsequenceKeep(part: seq<Message>, all: seq<Message>, m: Message)
    requires Subsequence(part, all)
    ensures Subsequence(part + [m], all + [m])
  {
    assert (all + [m])[..|all|] == all && (part + [m])[..|part|] == part;
  }

  /** A subsequence as long as the whole is the whole. */
  lemma {:induction false} SubsequenceWhole(part: seq<Message>, all: seq<Message>)
    requires Subsequence(part, all)
    ensures |part| <= |all| && (|part| == |all| ==> part == all)
  {
    if part != [] {
      var n, k := |all| - 1, |part| - 1;
      if Subsequence(part, all[..n]) {
        SubsequenceWhole(part, all[..n]);
      } else {
        SubsequenceWhole(part[..k], all[..n]);
        assert part == part[..k] + [part[k]] && all == all[..n] + [all[n]];
      }
    }
  }

  /** Where the queue begins among the published messages. */
  function StartOf(f: Feed): int {
    |f.published| - |f.queue|
  }

  /** The queue holds the latest messages, the reader took some of the earlier ones in order, and
      every message is taken, queued or dropped. */
  ghost predicate Inv(f: Feed) {
    && |f.queue| <= QUEUE_MAXSIZE
    && |f.taken| + f.dropped == StartOf(f) >= 0
    && f.queue == f.published[StartOf(f)..]
    && Subsequence(f.taken, f.published[..StartOf(f)])
  }

  lemma QueueBounded(f: Feed)
    requires Inv(f)
    ensures |f.queue| <= QUEUE_MAXSIZE
  {
  }

  lemma PublishKeeps(f: Feed, m: Message)
    requires Inv(f)
    ensures Inv(PutDropOldest(f, m))
  {
    hide Subsequence;
    var start, f' := StartOf(f), PutDropOldest(f, m);
    if |f.queue| == QUEUE_MAXSIZE {
      SubsequenceSkip(f.taken, f.published[..start], f.published[start]);
      assert f'.published[..start + 1] == f.published[..start] + [f.published[start]];
    } else {
      assert f'.published[..start] == f.published[..start];
    }
  }

  lemma TakeKeeps(f: Feed)
    requires Inv(f)
    ensures Inv(Take(f))
  {
    hide Subsequence;
    if f.queue != [] {
      var start := StartOf(f);
      SubsequenceKeep(f.taken, f.published[..start], f.queue[0]);
      assert f.published[..start + 1] == f.published[..start] + [f.queue[0]];
    }
  }

  lemma EmptyInv()
    ensures Inv(EMPTY)
  {
  }

  lemma {:induction false} RunKeeps(events: seq<Event>)
    ensures Inv(Run(EMPTY, events))
  {
    if events == [] {
      EmptyInv();
    } else {
      RunKeeps(events[..|events| - 1]);
      match events[|events| - 1]
      case Publish(m) => PublishKeeps(Run(EMPTY, events[..|events| - 1]), m);
      case Get => TakeKeeps(Run(EMPTY, events[..|events| - 1]));
    }
  }

  lemma {:induction false} SubsequenceAppend(part: seq<Message>, all: seq<Message>, tail: seq<Message>)
    requires Subsequence(part, all)
    ensures Subsequence(part + tail, all + tail)
  {
    hide Subsequence;
    if tail == [] {
      assert part + tail == part && all + tail == all;
    } else {
      var n := |tail| - 1;
      SubsequenceAppend(part, all, tail[..n]);
      SubsequenceKeep(part + tail[..n], all + tail[..n], tail[n]);
      assert part + tail == part + tail[..n] + [tail[n]] && all + tail == all + tail[..n] + [tail[n]];
    }
  }

  /** Under any interleaving of publishes and reads: at most 32 messages wait, they are the latest
      ones; what the reader took and what waits is, in order, part of what was published since it
      subscribed; and it is all of it exactly when nothing was dropped. */
  lemma {:induction false} FeedFaithful(events: seq<Event>)
    ensures var f := Run(EMPTY, events);
            && |f.queue| <= QUEUE_MAXSIZE && |f.queue| <= |f.published|
            && f.queue == f.published[|f.published| - |f.queue|..]
            && Subsequence(f.taken + f.queue, f.published)
            && (f.dropped == 0 <==> f.taken + f.queue == f.published)
  {
    hide Subsequence, Run;
    RunKeeps(events);
    var f := Run(EMPTY, events);
    SubsequenceAppend(f.taken, f.published[..StartOf(f)], f.queue);
    assert f.published == f.published[..StartOf(f)] + f.queue;
    SubsequenceWhole(f.taken + f.queue, f.published);
  }

  function Publishes(events: seq<Event>): nat {
    if events == [] then 0
    else Publishes(events[..|events| - 1]) + if events[|events| - 1].Publish? then 1 else 0
  }

  lemma {:induction false} PublishedSoFar(events: seq<Event>)
    ensures |Run(EMPTY, events).published| == Publishes(events)
  {
    if events != [] {
      PublishedSoFar(events[..|events| - 1]);
    }
  }

  /** A message is dropped only when another 32 have been published and not taken: as long as a reader
      is never more than 32 messages behind, it misses nothing. */
  lemma {:induction false} NothingDropped(events: seq<Event>)
    requires forall n :: 0 <= n <= |events| ==>
               Publishes(events[..n]) <= |Run(EMPTY, events[..n]).taken| + 32
    ensures Run(EMPTY, events).dropped == 0
    ensures Run(EMPTY, events).taken + Run(EMPTY, events).queue == Run(EMPTY, events).published
  {
    NeverBehind(events);
    FeedFaithful(events);
  }

  lemma {:induction false} NeverBehind(events: seq<Event>)
    requires forall n :: 0 <= n <= |events| ==>
               Publishes(events[..n]) <= |Run(EMPTY, events[..n]).taken| + 32
    ensures Run(EMPTY, events).dropped == 0
  {
    if events != [] {
      var front := events[..|events| - 1];
      forall n | 0 <= n <= |front| ensures Publishes(front[..n]) <= |Run(EMPTY, front[..n]).taken| + 32 {
        assert front[..n] == events[..n];
      }
      NeverBehind(front);
      RunKeeps(front);
      PublishedSoFar(front);
      assert events[..|events|] == events;
    }
  }

  // ------------------------------------------------------------ the objects

  /** One connection's queue. */
  class Queue {
    var items: seq<Message>
    ghost var published: seq<Message>
    ghost var taken: seq<Message>
    ghost var dropped: nat

    ghost function View(): Feed
      reads this
    {
      Feed(published, taken, items, dropped)
    }

    ghost predicate Valid()
      reads this
    {
      Inv(View())
    }

    constructor ()
      ensures Valid() && View() == EMPTY
    {
      items, published, taken, dropped := [], [], [], 0;
      new;
      EmptyInv();
    }

    /** The body of the loop in `publish`. */
    method Put(m: Message)
      requires Valid()
      modifies this
      ensures Valid() && View() == PutDropOldest(old(View()), m)
      ensures items == (if |old(items)| < 32 then old(items) else old(items)[1..]) + [m]
      ensures dropped == old(dropped) + if |old(items)| < 32 then 0 else 1
    {
      QueueBounded(View());
      hide Inv;
      PublishKeeps(View(), m);
      published := published + [m];
      if |items| == QUEUE_MAXSIZE {
        items := items[1..];
        dropped := dropped + 1;
      }
      items := items + [m];
    }

    method GetNext() returns (m: Message)
      requires Valid() && items != []
      modifies this
      ensures Valid() && View() == Take(old(View())) && taken == old(taken) + [m]
    {
      hide Inv;
      TakeKeeps(View());
      m := items[0];
      taken := taken + [m];
      items := items[1..];
    }
  }

  class InMemoryBroadcaster {
    var subscribers: map<User, set<Queue>>

    /** No user is kept with an empty set of queues, and no queue belongs to two users. */
    ghost predicate Valid()
      reads this, set u, q | u in subscribers && q in subscribers[u] :: q
    {
      && (forall u :: u in subscribers ==> subscribers[u] != {} && forall q :: q in subscribers[u] ==> q.Valid())
      && forall u, v :: u in subscribers && v in subscribers && u != v ==> subscribers[u] !! subscribers[v]
    }

    constructor ()
      ensures Valid() && subscribers == map[]
    {
      subscribers := map[];
    }

    function QueuesOf(user: User): set<Queue>
      reads this
    {
      if user in subscribers then subscribers[user] else {}
    }

    /** Every queue of the user gets the message, and no other queue changes. */
    method PublishTo(user: User, m: Message)
      requires Valid()
      modifies QueuesOf(user)
      ensures Valid()
      ensures forall q :: q in QueuesOf(user) ==> q.View() == PutDropOldest(old(q.View()), m)
    {
      hide Inv;
      var pending := QueuesOf(user);
      while pending != {}
        invariant pending <= QueuesOf(user)
        invariant forall q :: q in QueuesOf(user) ==> q.Valid()
        invariant forall q :: q in QueuesOf(user) - pending ==> q.View() == PutDropOldest(old(q.View()), m)
        invariant forall q :: q in pending ==> q.View() == old(q.View())
        decreases pending
      {
        var q :| q in pending;
        q.Put(m);
        pending := pending - {q};
      }
    }

    /** Entering the context manager: a new empty queue joins the user's. */
    method Subscribe(user: User) returns (queue: Queue)
      requires Valid()
      modifies this
      ensures Valid() && fresh(queue) && queue.View() == EMPTY
      ensures subscribers == old(subscribers)[user := old(QueuesOf(user)) + {queue}]
    {
      hide Inv;
      queue := new Queue();
      subscribers := subscribers[user := QueuesOf(user) + {queue}];
    }

    /** Leaving it: the queue goes, and the user with the last one. */
    method Unsubscribe(user: User, queue: Queue)
      requires Valid()
      modifies this
      ensures Valid() && QueuesOf(user) == old(QueuesOf(user)) - {queue}
      ensures user in subscribers <==> QueuesOf(user) != {}
      ensures forall v :: v != user ==> (v in subscribers <==> v in old(subscribers)) && QueuesOf(v) == old(QueuesOf(v))
    {
      hide Inv;
      if user in subscribers {
        var rest := subscribers[user] - {queue};
        subscribers := subscribers[user := rest];
        if rest == {} {
          subscribers := subscribers - {user};
        }
      }
    }
  }
}
