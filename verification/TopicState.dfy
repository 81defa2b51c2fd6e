/** One topic of the message store as a value, with the history of what happened to its messages. */
module TopicState {
  import opened Bytes

  /** A subscriber or a consumer group; the store keys its maps by "sub:" or "grp:" and the id. */
  datatype ConsumerKey = Subscriber(id: string) | Group(id: string)

  function MakeConsumerKey(key: ConsumerKey): string {
    match key
    case Subscriber(id) => "sub:" + id
    case Group(id) => "grp:" + id
  }

  /** Keeping the consumers apart by key text loses nothing. */
  lemma ConsumerKeysDistinct(a: ConsumerKey, b: ConsumerKey)
    ensures MakeConsumerKey(a) == MakeConsumerKey(b) <==> a == b
  {
    var s, t := MakeConsumerKey(a), MakeConsumerKey(b);
    assert s[4..] == a.id && t[4..] == b.id;
    assert s[0] == (if a.Group? then 'g' else 's') && t[0] == (if b.Group? then 'g' else 's');
  }

  datatype Message = Message(id: nat, payload: seq<byte>, timestamp: nat, retryCount: nat, expiresAt: nat)

  /** A delivered copy that waits for its acknowledgement. */
  datatype Pending = Pending(msg: Message, pullTime: int)

  type CopyKey = (ConsumerKey, nat)

  datatype Topic = Topic(
    ring: seq<Message>,
    log: seq<Message>,
    retry: seq<Message>,
    offsets: map<ConsumerKey, nat>,
    pending: map<CopyKey, Pending>,
    nextId: nat,
    dlq: seq<Message>)

  datatype Delivery = Delivery(key: ConsumerKey, msg: Message, fromLog: bool)

  /** `stored`: successful publishes in order; `purged`: ids the expiry scan took out of the log; `now`: the last clock reading. */
  datatype History = History(
    stored: seq<Message>,
    purged: set<nat>,
    deliveries: seq<Delivery>,
    acked: set<CopyKey>,
    dlqPulled: seq<Message>,
    now: nat)

  datatype System = System(topic: Topic, history: History)

  /** The steady clock when the n-th delivery of all is made. */
  type SteadyClock = nat -> int

  const EMPTY_SYSTEM := System(Topic([], [], [], map[], map[], 1, []), History([], {}, [], {}, [], 0))

  /** Bytes in front of the payload of a stored record: id, timestamp, expiry and payload size. */
  const RECORD_OVERHEAD: nat := 28

  predicate Expired(m: Message, now: nat) {
    m.expiresAt > 0 && now > m.expiresAt
  }

  /** The next id a consumer takes from the log; an absent or zero entry stands for the first message. */
  function Offset(t: Topic, key: ConsumerKey): nat {
    if key in t.offsets && t.offsets[key] != 0 then t.offsets[key] else 1
  }

  function Without(s: seq<Message>, id: nat): seq<Message> {
    if s == [] then [] else if s[0].id == id then Without(s[1..], id) else [s[0]] + Without(s[1..], id)
  }

  function Unexpired(s: seq<Message>, now: nat): seq<Message> {
    if s == [] then [] else if Expired(s[0], now) then Unexpired(s[1..], now) else [s[0]] + Unexpired(s[1..], now)
  }

  function RemoveAt(s: seq<Message>, j: nat): seq<Message>
    requires j < |s|
  {
    s[..j] + s[j + 1..]
  }

  // The single changes that the operations are made of.

  function Tick(s: System, now: nat): System {
    s.(history := s.history.(now := now))
  }

  /** An id is used up, whether or not the ring takes the message. */
  function Store(s: System, m: Message, taken: bool): System {
    var t := s.topic.(nextId := s.topic.nextId + 1);
    if taken then System(t.(ring := t.ring + [m]), s.history.(stored := s.history.stored + [m])) else s.(topic := t)
  }

  function DrainOne(s: System): System
    requires s.topic.ring != []
  {
    s.(topic := s.topic.(ring := s.topic.ring[1..], log := s.topic.log + [s.topic.ring[0]]))
  }

  function MoveOffset(s: System, key: ConsumerKey, offset: nat): System {
    s.(topic := s.topic.(offsets := s.topic.offsets[key := offset]))
  }

  /** Hands `m` to `key`; the copy is pending from then on. */
  function Deliver(s: System, key: ConsumerKey, m: Message, fromLog: bool, steady: SteadyClock): System {
    System(
      s.topic.(pending := s.topic.pending[(key, m.id) := Pending(m, steady(|s.history.deliveries|))]),
      s.history.(deliveries := s.history.deliveries + [Delivery(key, m, fromLog)]))
  }

  function DropRetry(s: System, j: nat): System
    requires j < |s.topic.retry|
  {
    s.(topic := s.topic.(retry := RemoveAt(s.topic.retry, j)))
  }

  function DropPending(s: System, x: CopyKey): System {
    s.(topic := s.topic.(pending := s.topic.pending - {x}))
  }

  function DeadLetter(s: System, m: Message): System {
    s.(topic := s.topic.(dlq := s.topic.dlq + [m]))
  }

  /** The new retry copy replaces an older one of the same id. */
  function Requeue(s: System, m: Message): System {
    s.(topic := s.topic.(retry := Without(s.topic.retry, m.id) + [m.(retryCount := m.retryCount + 1)]))
  }

  // The operations.

  function Publish(s: System, payload: seq<byte>, now: nat, timestamp: nat, ttl: nat, taken: bool): System {
    Store(s, Message(s.topic.nextId, payload, timestamp, 0, if ttl > 0 then now + ttl else 0), taken)
  }

  /** Moves records from the ring to the log; an oversized one blocks those behind it. */
  function DrainAll(s: System): System
    decreases |s.topic.ring|
  {
    if s.topic.ring == [] || RECORD_OVERHEAD + |s.topic.ring[0].payload| > MAX_PAYLOAD_SIZE then s
    else DrainAll(DrainOne(s))
  }

  function VisitLog(s: System, key: ConsumerKey, m: Message, steady: SteadyClock): System {
    if m.id < Offset(s.topic, key) then s
    else if Expired(m, s.history.now) then MoveOffset(s, key, m.id + 1)
    else if (key, m.id) in s.topic.pending then s
    else MoveOffset(Deliver(s, key, m, true, steady), key, m.id + 1)
  }

  /** Takes messages from the log from index `j` on until there have been `goal` deliveries in all. */
  function ScanLog(s: System, key: ConsumerKey, j: nat, goal: nat, steady: SteadyClock): System
    decreases |s.topic.log| - j
  {
    if j >= |s.topic.log| || |s.history.deliveries| >= goal then s
    else ScanLog(VisitLog(s, key, s.topic.log[j], steady), key, j + 1, goal, steady)
  }

  /** Takes copies from the retry queue from index `j` on until there have been `goal` deliveries in all. */
  function ScanRetry(s: System, key: ConsumerKey, j: nat, goal: nat, steady: SteadyClock): System
    decreases |s.topic.retry| - j
  {
    if j >= |s.topic.retry| || |s.history.deliveries| >= goal then s
    else
      var m := s.topic.retry[j];
      if Expired(m, s.history.now) then ScanRetry(DropRetry(s, j), key, j, goal, steady)
      else if (key, m.id) in s.topic.pending then ScanRetry(s, key, j + 1, goal, steady)
      else ScanRetry(Deliver(DropRetry(s, j), key, m, false, steady), key, j, goal, steady)
  }

  /** The drained state with the consumer's offset entered, in which the scan begins. */
  function OpenPull(s: System, key: ConsumerKey, now: nat): System {
    var drained := DrainAll(Tick(s, now));
    MoveOffset(drained, key, Offset(drained.topic, key))
  }

  function PullLog(s: System, key: ConsumerKey, max: nat, now: nat, steady: SteadyClock): System {
    ScanLog(OpenPull(s, key, now), key, 0, |s.history.deliveries| + max, steady)
  }

  /** First from the log, then from the retry queue. */
  function Pull(s: System, key: ConsumerKey, max: nat, now: nat, steady: SteadyClock): System {
    ScanRetry(PullLog(s, key, max, now, steady), key, 0, |s.history.deliveries| + max, steady)
  }

  function Ack(s: System, x: CopyKey): System {
    if x in s.topic.pending then DropPending(s.(history := s.history.(acked := s.history.acked + {x})), x) else s
  }

  function PullDlq(s: System, max: nat): System {
    var count := if max < |s.topic.dlq| then max else |s.topic.dlq|;
    System(
      s.topic.(dlq := s.topic.dlq[count..]),
      s.history.(dlqPulled := s.history.dlqPulled + s.topic.dlq[..count]))
  }

  datatype Settings = Settings(maxRetry: nat, pendingTimeout: nat)

  /** What the retry scan does with one pending copy. */
  function TimeOut(s: System, x: CopyKey, steady: int, c: Settings): System
    requires x in s.topic.pending
  {
    var p := s.topic.pending[x];
    if steady - p.pullTime < c.pendingTimeout then s
    else if Expired(p.msg, s.history.now) then DropPending(s, x)
    else if p.msg.retryCount >= c.maxRetry then DropPending(DeadLetter(s, p.msg), x)
    else DropPending(Requeue(s, p.msg), x)
  }

  /** Pending copies, none of them twice. */
  ghost predicate Visitable(order: seq<CopyKey>, pending: map<CopyKey, Pending>) {
    && (forall i :: 0 <= i < |order| ==> order[i] in pending)
    && (forall i, j :: 0 <= i < j < |order| ==> order[i] != order[j])
  }

  /** The retry scan visits the pending copies in the order of the hash maps, which is not specified. */
  function RetryScan(s: System, order: seq<CopyKey>, steady: int, c: Settings): System
    requires Visitable(order, s.topic.pending)
    decreases |order|
  {
    if order == [] then s else RetryScan(TimeOut(s, order[0], steady, c), order[1..], steady, c)
  }

  function ExpiryScan(s: System, now: nat): System {
    var t := s.topic;
    System(
      t.(log := Unexpired(t.log, now),
         retry := Unexpired(t.retry, now),
         pending := map x | x in t.pending && !Expired(t.pending[x].msg, now) :: t.pending[x]),
      s.history.(purged := s.history.purged + (set m | m in t.log && Expired(m, now) :: m.id), now := now))
  }
}
