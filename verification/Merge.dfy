/**
 The fan-in `pipeline.Merge`: one forwarding goroutine for each argument, and a closer that closes
 the output after the last of them. The senders on the argument channels and the reader of the
 output are the environment: they send, close and receive whenever they like, or not at all.
 The same channel may be passed more than once.
 */
module Merge {
  import opened Prelude
  import opened Interleavings

  /** All values ever sent on a channel, how many were taken, and whether it is closed. */
  datatype Channel<T> = Channel(sent: seq<T>, taken: nat, closed: bool)

  /** A forwarding goroutine: receiving from its input, blocked on sending to out, or gone. */
  datatype Hand<T> = Receiving | Holding(v: T) | Exited

  /** A forwarder of channel `input`; what it has passed on is history. */
  datatype Lane<T> = Lane(input: nat, hand: Hand<T>, passed: seq<T>)

  datatype State<T> = State(
    chans: seq<Channel<T>>,
    lanes: seq<Lane<T>>,
    wanted: nat,              // receives on out that wait for a value
    output: seq<T>,           // what the reader has received
    outCloses: nat)

  datatype Action<T> =
    | Send(c: nat, v: T)      // environment
    | CloseInput(c: nat)      // environment
    | Want                    // environment: the reader starts a receive on out
    | Receive(k: nat)
    | Forward(k: nat)
    | Leave(k: nat)
    | CloseOut

  predicate Internal<T>(a: Action<T>) {
    a.Receive? || a.Forward? || a.Leave? || a.CloseOut?
  }

  /** The arguments of one call: indices into the channels there are. */
  predicate Arguments(channels: nat, args: seq<nat>) {
    forall i | 0 <= i < |args| :: args[i] < channels
  }

  function Init<T>(channels: nat, args: seq<nat>): State<T> {
    State(seq(channels, _ => Channel([], 0, false)),
          seq(|args|, i requires 0 <= i < |args| => Lane(args[i], Receiving, [])), 0, [], 0)
  }

  predicate AllExited<T>(lanes: seq<Lane<T>>) {
    forall k | 0 <= k < |lanes| :: lanes[k].hand.Exited?
  }

  function Step<T>(s: State<T>, a: Action<T>): Option<State<T>> {
    match a
    case Send(c, v) =>
      if c < |s.chans| && !s.chans[c].closed then
        Some(s.(chans := s.chans[c := s.chans[c].(sent := s.chans[c].sent + [v])]))
      else None
    case CloseInput(c) =>
      if c < |s.chans| && !s.chans[c].closed then
        Some(s.(chans := s.chans[c := s.chans[c].(closed := true)]))
      else None
    case Want =>
      if s.outCloses == 0 then Some(s.(wanted := s.wanted + 1)) else None
    case Receive(k) =>
      if k < |s.lanes| && s.lanes[k].hand.Receiving? && s.lanes[k].input < |s.chans|
         && s.chans[s.lanes[k].input].taken < |s.chans[s.lanes[k].input].sent| then
        var c := s.lanes[k].input;
        var ch := s.chans[c];
        Some(s.(chans := s.chans[c := ch.(taken := ch.taken + 1)],
                lanes := s.lanes[k := s.lanes[k].(hand := Holding(ch.sent[ch.taken]))]))
      else None
    case Forward(k) =>
      if k < |s.lanes| && s.lanes[k].hand.Holding? && s.wanted > 0 then
        var v := s.lanes[k].hand.v;
        Some(s.(lanes := s.lanes[k := s.lanes[k].(hand := Receiving, passed := s.lanes[k].passed + [v])],
                wanted := s.wanted - 1, output := s.output + [v]))
      else None
    case Leave(k) =>
      if k < |s.lanes| && s.lanes[k].hand.Receiving? && s.lanes[k].input < |s.chans|
         && s.chans[s.lanes[k].input].closed
         && s.chans[s.lanes[k].input].taken == |s.chans[s.lanes[k].input].sent| then
        Some(s.(lanes := s.lanes[k := s.lanes[k].(hand := Exited)]))
      else None
    case CloseOut =>
      if s.outCloses == 0 && AllExited(s.lanes) then Some(s.(outCloses := s.outCloses + 1, wanted := 0)) else None
  }

  function Replay<T>(s: State<T>, schedule: seq<Action<T>>): Option<State<T>>
    decreases schedule
  {
    if schedule == [] then Some(s)
    else match Step(s, schedule[0])
         case None => None
         case Some(t) => Replay(t, schedule[1..])
  }

  predicate Reaches<T(==)>(channels: nat, args: seq<nat>, schedule: seq<Action<T>>, s: State<T>) {
    Arguments(channels, args) && Replay(Init(channels, args), schedule) == Some(s)
  }

  // ----- the invariant -----

  /** What a forwarder has received. */
  function Got<T>(lane: Lane<T>): seq<T> {
    if lane.hand.Holding? then lane.passed + [lane.hand.v] else lane.passed
  }

  /** What each forwarder has received from channel `c`. */
  function GotFrom<T>(lanes: seq<Lane<T>>, c: nat): (parts: seq<seq<T>>)
    ensures |parts| == |lanes|
  {
    seq(|lanes|, k requires 0 <= k < |lanes| => if lanes[k].input == c then Got(lanes[k]) else [])
  }

  function AllGot<T>(lanes: seq<Lane<T>>): (parts: seq<seq<T>>)
    ensures |parts| == |lanes|
  {
    seq(|lanes|, k requires 0 <= k < |lanes| => Got(lanes[k]))
  }

  function Passed<T>(lanes: seq<Lane<T>>): (parts: seq<seq<T>>)
    ensures |parts| == |lanes|
  {
    seq(|lanes|, k requires 0 <= k < |lanes| => lanes[k].passed)
  }

  function TakenFrom<T>(ch: Channel<T>): seq<T>
    requires ch.taken <= |ch.sent|
  {
    ch.sent[..ch.taken]
  }

  predicate ChannelsOk<T>(chans: seq<Channel<T>>) {
    forall c | 0 <= c < |chans| :: chans[c].taken <= |chans[c].sent|
  }

  function AllTaken<T>(chans: seq<Channel<T>>): (parts: seq<seq<T>>)
    requires ChannelsOk(chans)
    ensures |parts| == |chans|
  {
    seq(|chans|, c requires 0 <= c < |chans| => TakenFrom(chans[c]))
  }

  predicate LaneOk<T>(lane: Lane<T>, input: nat, chans: seq<Channel<T>>) {
    && lane.input == input < |chans|
    && (lane.hand.Exited? ==> chans[input].closed && chans[input].taken == |chans[input].sent|)
  }

  ghost predicate Inv<T>(args: seq<nat>, s: State<T>) {
    && ChannelsOk(s.chans)
    && |s.lanes| == |args|
    && (forall k | 0 <= k < |s.lanes| :: LaneOk(s.lanes[k], args[k], s.chans))
    && (forall c | 0 <= c < |s.chans| :: Interleaving(TakenFrom(s.chans[c]), GotFrom(s.lanes, c)))
    && (forall c | 0 <= c < |s.chans| && c !in args :: s.chans[c].taken == 0)
    && Interleaving(s.output, Passed(s.lanes))
    && Bag(AllGot(s.lanes)) == Bag(AllTaken(s.chans))
    && s.outCloses <= 1
    && (s.outCloses == 1 ==> AllExited(s.lanes))
  }

  lemma InitInv<T>(channels: nat, args: seq<nat>)
    requires Arguments(channels, args)
    ensures Inv(args, Init<T>(channels, args))
  {
    var s := Init<T>(channels, args);
    BagOfNothing(AllGot(s.lanes));
    BagOfNothing(AllTaken(s.chans));
  }

  /** What a lane receives goes from its channel's untaken values to its own. */
  lemma ReceiveMoves<T>(args: seq<nat>, s: State<T>, t: State<T>, k: nat)
    requires Inv(args, s) && Step(s, Receive(k)) == Some(t)
    ensures ChannelsOk(t.chans)
    ensures var c := s.lanes[k].input;
            var v := s.chans[c].sent[s.chans[c].taken];
            && TakenFrom(t.chans[c]) == TakenFrom(s.chans[c]) + [v]
            && GotFrom(t.lanes, c) == GotFrom(s.lanes, c)[k := GotFrom(s.lanes, c)[k] + [v]]
            && AllGot(t.lanes) == AllGot(s.lanes)[k := AllGot(s.lanes)[k] + [v]]
            && AllTaken(t.chans) == AllTaken(s.chans)[c := AllTaken(s.chans)[c] + [v]]
            && Passed(t.lanes) == Passed(s.lanes)
  {
  }

  lemma ReceiveKeepsChannels<T>(args: seq<nat>, s: State<T>, t: State<T>, k: nat, d: nat)
    requires Inv(args, s) && Step(s, Receive(k)) == Some(t) && d < |s.chans|
    ensures t.chans[d].taken <= |t.chans[d].sent|
    ensures Interleaving(TakenFrom(t.chans[d]), GotFrom(t.lanes, d))
  {
    var c := s.lanes[k].input;
    if d == c {
      ReceiveMoves(args, s, t, k);
      DealOneMore(TakenFrom(s.chans[c]), GotFrom(s.lanes, c), k, s.chans[c].sent[s.chans[c].taken]);
    } else {
      assert GotFrom(t.lanes, d) == GotFrom(s.lanes, d);
    }
  }

  lemma ReceiveKeepsLanes<T>(args: seq<nat>, s: State<T>, t: State<T>, k: nat, j: nat)
    requires Inv(args, s) && Step(s, Receive(k)) == Some(t) && j < |s.lanes|
    ensures LaneOk(t.lanes[j], args[j], t.chans)
  {
    assert LaneOk(s.lanes[j], args[j], s.chans) && LaneOk(s.lanes[k], args[k], s.chans);
  }

  /** The same value leaves the channels and comes to the forwarders. */
  lemma ReceiveKeepsBags<T>(args: seq<nat>, s: State<T>, t: State<T>, k: nat)
    requires Inv(args, s) && Step(s, Receive(k)) == Some(t) && ChannelsOk(t.chans)
    ensures Bag(AllGot(t.lanes)) == Bag(AllTaken(t.chans))
  {
    var c := s.lanes[k].input;
    var v := s.chans[c].sent[s.chans[c].taken];
    ReceiveMoves(args, s, t, k);
    BagGrows(AllGot(s.lanes), k, v);
    BagGrows(AllTaken(s.chans), c, v);
  }

  lemma ReceiveInv<T>(args: seq<nat>, s: State<T>, t: State<T>, k: nat)
    requires Inv(args, s) && Step(s, Receive(k)) == Some(t)
    ensures Inv(args, t)
  {
    assert LaneOk(s.lanes[k], args[k], s.chans);
    ReceiveMoves(args, s, t, k);
    forall d | 0 <= d < |t.chans|
      ensures Interleaving(TakenFrom(t.chans[d]), GotFrom(t.lanes, d))
    {
      ReceiveKeepsChannels(args, s, t, k, d);
    }
    forall j | 0 <= j < |t.lanes|
      ensures LaneOk(t.lanes[j], args[j], t.chans)
    {
      ReceiveKeepsLanes(args, s, t, k, j);
    }
    ReceiveKeepsBags(args, s, t, k);
  }

  lemma ForwardInv<T>(args: seq<nat>, s: State<T>, t: State<T>, k: nat)
    requires Inv(args, s) && Step(s, Forward(k)) == Some(t)
    ensures Inv(args, t)
  {
    var v := s.lanes[k].hand.v;
    assert Got(t.lanes[k]) == Got(s.lanes[k]);
    forall c | 0 <= c < |s.chans|
      ensures GotFrom(t.lanes, c) == GotFrom(s.lanes, c)
    {
    }
    assert AllGot(t.lanes) == AllGot(s.lanes);
    assert Passed(t.lanes) == Passed(s.lanes)[k := Passed(s.lanes)[k] + [v]];
    DealOneMore(s.output, Passed(s.lanes), k, v);
  }

  /** A step that moves no value leaves what was taken and passed on as it is. */
  lemma QuietMoves<T>(s: State<T>, a: Action<T>)
    requires !a.Receive? && !a.Forward? && ChannelsOk(s.chans) && Step(s, a).Some?
    ensures var t := Step(s, a).value;
            && ChannelsOk(t.chans) && |t.chans| == |s.chans| && |t.lanes| == |s.lanes|
            && AllTaken(t.chans) == AllTaken(s.chans)
            && Passed(t.lanes) == Passed(s.lanes) && AllGot(t.lanes) == AllGot(s.lanes)
  {
    var t := Step(s, a).value;
    forall c | 0 <= c < |s.chans|
      ensures TakenFrom(t.chans[c]) == TakenFrom(s.chans[c])
    {
    }
    assert AllTaken(t.chans) == AllTaken(s.chans);
  }

  lemma QuietKeepsChannels<T>(args: seq<nat>, s: State<T>, a: Action<T>, c: nat)
    requires !a.Receive? && !a.Forward? && Inv(args, s) && Step(s, a).Some? && c < |s.chans|
    ensures var t := Step(s, a).value;
            c < |t.chans| && t.chans[c].taken == s.chans[c].taken <= |t.chans[c].sent|
            && Interleaving(TakenFrom(t.chans[c]), GotFrom(t.lanes, c))
  {
    var t := Step(s, a).value;
    assert TakenFrom(t.chans[c]) == TakenFrom(s.chans[c]) && GotFrom(t.lanes, c) == GotFrom(s.lanes, c);
  }

  lemma QuietKeepsLanes<T>(args: seq<nat>, s: State<T>, a: Action<T>, k: nat)
    requires !a.Receive? && !a.Forward? && Inv(args, s) && Step(s, a).Some? && k < |s.lanes|
    ensures k < |Step(s, a).value.lanes| && LaneOk(Step(s, a).value.lanes[k], args[k], Step(s, a).value.chans)
  {
    assert LaneOk(s.lanes[k], args[k], s.chans);
  }

  lemma QuietInv<T>(args: seq<nat>, s: State<T>, a: Action<T>)
    requires !a.Receive? && !a.Forward? && Inv(args, s) && Step(s, a).Some?
    ensures Inv(args, Step(s, a).value)
  {
    var t := Step(s, a).value;
    QuietMoves(s, a);
    forall c | 0 <= c < |t.chans|
      ensures t.chans[c].taken == s.chans[c].taken && Interleaving(TakenFrom(t.chans[c]), GotFrom(t.lanes, c))
    {
      QuietKeepsChannels(args, s, a, c);
    }
    forall k | 0 <= k < |t.lanes|
      ensures LaneOk(t.lanes[k], args[k], t.chans)
    {
      QuietKeepsLanes(args, s, a, k);
    }
  }

  lemma StepInv<T>(args: seq<nat>, s: State<T>, a: Action<T>)
    requires Inv(args, s) && Step(s, a).Some?
    ensures Inv(args, Step(s, a).value)
  {
    match a
    case Receive(k) => ReceiveInv(args, s, Step(s, a).value, k);
    case Forward(k) => ForwardInv(args, s, Step(s, a).value, k);
    case _ => QuietInv(args, s, a);
  }

  lemma {:induction false} ReplayInv<T>(args: seq<nat>, s: State<T>, schedule: seq<Action<T>>)
    requires Inv(args, s) && Replay(s, schedule).Some?
    ensures Inv(args, Replay(s, schedule).value)
    decreases schedule
  {
    if schedule != [] {
      StepInv(args, s, schedule[0]);
      ReplayInv(args, Step(s, schedule[0]).value, schedule[1..]);
    }
  }

  lemma ReachableInv<T>(channels: nat, args: seq<nat>, schedule: seq<Action<T>>, s: State<T>)
    requires Reaches(channels, args, schedule, s)
    ensures Inv(args, s)
  {
    InitInv<T>(channels, args);
    ReplayInv(args, Init<T>(channels, args), schedule);
  }

  // ----- what senders and reader did -----

  /** The values the schedule sends on channel `c`, in order. */
  function SentOn<T>(schedule: seq<Action<T>>, c: nat): seq<T> {
    if schedule == [] then []
    else (if schedule[0].Send? && schedule[0].c == c then [schedule[0].v] else []) + SentOn(schedule[1..], c)
  }

  /** How many receives on out the schedule starts. */
  function Wants<T>(schedule: seq<Action<T>>): nat {
    if schedule == [] then 0 else (if schedule[0].Want? then 1 else 0) + Wants(schedule[1..])
  }

  lemma {:induction false} EnvironmentReplay<T>(s: State<T>, schedule: seq<Action<T>>, t: State<T>, c: nat)
    requires Replay(s, schedule) == Some(t) && c < |s.chans|
    ensures t.outCloses >= s.outCloses
    ensures |t.chans| == |s.chans| && t.chans[c].sent == s.chans[c].sent + SentOn(schedule, c)
    ensures t.chans[c].closed <==> s.chans[c].closed || CloseInput(c) in schedule
    ensures t.outCloses == 0 ==> |t.output| + t.wanted == |s.output| + s.wanted + Wants(schedule)
    decreases schedule
  {
    if schedule != [] {
      var u := Step(s, schedule[0]).value;
      EnvironmentReplay(u, schedule[1..], t, c);
      assert schedule == [schedule[0]] + schedule[1..];
    }
  }

  /**
   A channel holds exactly what its senders sent, is closed exactly when one of them closed it, and while
   the output is open every receive on it waits or has got one value.
   */
  lemma OnlySendersAndReaderDecide<T>(channels: nat, args: seq<nat>, schedule: seq<Action<T>>, s: State<T>, c: nat)
    requires Reaches(channels, args, schedule, s) && c < channels
    ensures |s.chans| == channels && s.chans[c].sent == SentOn(schedule, c)
    ensures s.chans[c].closed <==> CloseInput(c) in schedule
    ensures s.outCloses == 0 ==> |s.output| + s.wanted == Wants(schedule)
  {
    EnvironmentReplay(Init<T>(channels, args), schedule, s, c);
  }

  // ----- what the reader gets -----

  /** The values of the channels that were passed to Merge. */
  function Chosen<T>(args: seq<nat>, values: seq<seq<T>>): (parts: seq<seq<T>>)
    ensures |parts| == |values|
  {
    seq(|values|, c requires 0 <= c < |values| => if c in args then values[c] else [])
  }

  function AllSent<T>(chans: seq<Channel<T>>): (parts: seq<seq<T>>)
    ensures |parts| == |chans|
  {
    seq(|chans|, c requires 0 <= c < |chans| => chans[c].sent)
  }

  /** Everything sent on the channels that were passed to Merge. */
  function Inputs<T>(args: seq<nat>, chans: seq<Channel<T>>): (parts: seq<seq<T>>)
    ensures |parts| == |chans|
  {
    Chosen(args, AllSent(chans))
  }

  ghost predicate PrefixesOf<T>(parts: seq<seq<T>>, chans: seq<Channel<T>>) {
    |parts| == |chans| && forall c | 0 <= c < |chans| :: parts[c] <= chans[c].sent
  }

  /** The output interleaves beginnings of what was sent on the channels: each channel's order is kept. */
  ghost predicate InOrder<T(!new)>(s: State<T>) {
    exists parts :: PrefixesOf(parts, s.chans) && Interleaving(s.output, parts)
  }

  /** What was passed on of each channel, when no two forwarders read the same one. */
  ghost function PassedByChannel<T>(args: seq<nat>, lanes: seq<Lane<T>>, channels: nat): (parts: seq<seq<T>>)
    requires |lanes| == |args|
    ensures |parts| == channels
    ensures Arguments(channels, args) && Distinct(args) ==> Renamed(Passed(lanes), args, parts)
  {
    seq(channels, c requires 0 <= c < channels =>
      if k :| 0 <= k < |args| && args[k] == c then lanes[k].passed else [])
  }

  /** A forwarder that has its channel for itself has received exactly what was taken from it. */
  lemma SoleReaderGotAll<T>(args: seq<nat>, s: State<T>, k: nat)
    requires Inv(args, s) && Distinct(args) && k < |args|
    ensures args[k] < |s.chans| && Got(s.lanes[k]) == TakenFrom(s.chans[args[k]])
  {
    var c := args[k];
    assert LaneOk(s.lanes[k], c, s.chans);
    forall j | 0 <= j < |args| && j != k
      ensures GotFrom(s.lanes, c)[j] == []
    {
      assert LaneOk(s.lanes[j], args[j], s.chans);
    }
    OnePartIsAll(TakenFrom(s.chans[c]), GotFrom(s.lanes, c), k);
  }

  lemma DistinctInputsInOrder<T>(args: seq<nat>, s: State<T>)
    requires Inv(args, s) && Distinct(args)
    ensures PrefixesOf(PassedByChannel(args, s.lanes, |s.chans|), s.chans)
    ensures Interleaving(s.output, PassedByChannel(args, s.lanes, |s.chans|))
  {
    var parts := PassedByChannel(args, s.lanes, |s.chans|);
    forall k | 0 <= k < |args|
      ensures args[k] < |s.chans| && s.lanes[k].passed <= s.chans[args[k]].sent
    {
      SoleReaderGotAll(args, s, k);
    }
    forall c | 0 <= c < |s.chans|
      ensures parts[c] <= s.chans[c].sent
    {
      if c in args {
        var k :| 0 <= k < |args| && args[k] == c;
        assert parts[c] == Passed(s.lanes)[k];
      }
    }
    RenamedInterleaving(s.output, Passed(s.lanes), args, parts);
  }

  ghost predicate AlwaysInOrder<T(!new)>(channels: nat, args: seq<nat>) {
    forall schedule: seq<Action<T>>, s: State<T> | Reaches(channels, args, schedule, s) :: InOrder(s)
  }

  /** Two forwarders of one channel: the second overtakes the first. */
  lemma TwoReadersOvertake<T>(channels: nat, args: seq<nat>, i: nat, j: nat, first: T, second: T)
    returns (schedule: seq<Action<T>>, s: State<T>)
    requires Arguments(channels, args) && i < j < |args| && args[i] == args[j]
    ensures Reaches(channels, args, schedule, s) && s.output == [second, first]
    ensures |s.chans| == channels && s.chans[args[i]].sent == [first, second]
    ensures forall c | 0 <= c < channels && c != args[i] :: s.chans[c].sent == []
  {
    var c := args[i];
    var s0 := Init<T>(channels, args);
    var s1 := Step(s0, Send(c, first)).value;
    var s2 := Step(s1, Send(c, second)).value;
    var s3 := Step(s2, Receive(i)).value;
    var s4 := Step(s3, Receive(j)).value;
    var s5 := Step(s4, Want).value;
    var s6 := Step(s5, Forward(j)).value;
    var s7 := Step(s6, Want).value;
    s := Step(s7, Forward(i)).value;
    var l8: seq<Action<T>> := [Forward(i)];
    var l7 := [Want] + l8;
    var l6 := [Forward(j)] + l7;
    var l5 := [Want] + l6;
    var l4 := [Receive(j)] + l5;
    var l3 := [Receive(i)] + l4;
    var l2 := [Send(c, second)] + l3;
    schedule := [Send(c, first)] + l2;
    assert l8[1..] == [] && l7[1..] == l8 && l6[1..] == l7 && l5[1..] == l6 && l4[1..] == l5;
    assert l3[1..] == l4 && l2[1..] == l3 && schedule[1..] == l2;
    assert Replay(s6, l7) == Replay(s7, l8) == Some(s);
    assert Replay(s4, l5) == Replay(s5, l6) == Some(s);
    assert Replay(s2, l3) == Replay(s3, l4) == Some(s);
    assert Replay(s0, schedule) == Replay(s1, l2) == Some(s);
  }

  /** Two values in the wrong order do not interleave beginnings of one channel and nothing else. */
  lemma OvertakenIsNotInOrder<T>(s: State<T>, c: nat, first: T, second: T, parts: seq<seq<T>>)
    requires first != second && c < |s.chans| && s.output == [second, first] && s.chans[c].sent == [first, second]
    requires forall d | 0 <= d < |s.chans| && d != c :: s.chans[d].sent == []
    requires PrefixesOf(parts, s.chans)
    ensures !Interleaving(s.output, parts)
  {
    if Interleaving(s.output, parts) {
      OnePartIsAll(s.output, parts, c);
      assert false;
    }
  }

  /**
   Each channel's values come out in the order they were sent, in every run, exactly when no channel
   is passed twice.
   */
  lemma InOrderIffDistinct<T(!new)>(channels: nat, args: seq<nat>, first: T, second: T)
    requires Arguments(channels, args) && first != second
    ensures AlwaysInOrder<T>(channels, args) <==> Distinct(args)
  {
    if Distinct(args) {
      forall schedule: seq<Action<T>>, s: State<T> | Reaches(channels, args, schedule, s)
        ensures InOrder(s)
      {
        ReachableInv(channels, args, schedule, s);
        DistinctInputsInOrder(args, s);
      }
    } else {
      var i, j :| 0 <= i < j < |args| && args[i] == args[j];
      var schedule, s := TwoReadersOvertake(channels, args, i, j, first, second);
      if InOrder(s) {
        var parts :| PrefixesOf(parts, s.chans) && Interleaving(s.output, parts);
        OvertakenIsNotInOrder(s, args[i], first, second, parts);
      }
    }
  }

  lemma AllExitedHavePassedAll<T>(args: seq<nat>, s: State<T>)
    requires Inv(args, s) && AllExited(s.lanes)
    ensures AllGot(s.lanes) == Passed(s.lanes)
    ensures AllTaken(s.chans) == Inputs(args, s.chans)
    ensures forall c | 0 <= c < |s.chans| && c in args :: s.chans[c].closed && TakenFrom(s.chans[c]) == s.chans[c].sent
  {
    forall c | 0 <= c < |s.chans| && c in args
      ensures s.chans[c].closed && TakenFrom(s.chans[c]) == s.chans[c].sent
    {
      var k :| 0 <= k < |args| && args[k] == c;
      assert LaneOk(s.lanes[k], args[k], s.chans);
    }
  }

  lemma FinishedOutput<T>(args: seq<nat>, s: State<T>)
    requires Inv(args, s) && AllExited(s.lanes)
    ensures multiset(s.output) == Bag(Inputs(args, s.chans))
    ensures Distinct(args) ==> Interleaving(s.output, Inputs(args, s.chans))
  {
    AllExitedHavePassedAll(args, s);
    InterleavingKeepsValues(s.output, Passed(s.lanes));
    if Distinct(args) {
      forall k | 0 <= k < |args|
        ensures args[k] < |s.chans| && Inputs(args, s.chans)[args[k]] == Passed(s.lanes)[k]
      {
        SoleReaderGotAll(args, s, k);
        assert s.lanes[k].hand.Exited?;
      }
      RenamedInterleaving(s.output, Passed(s.lanes), args, Inputs(args, s.chans));
    }
  }

  /** The parts of channel `c`, forwarder by forwarder. */
  function ShareOf<T>(args: seq<nat>, passed: seq<seq<T>>, c: nat): (parts: seq<seq<T>>)
    requires |passed| == |args|
    ensures |parts| == |args|
  {
    seq(|args|, k requires 0 <= k < |args| => if args[k] == c then passed[k] else [])
  }

  /** A finished channel's values, in the order sent, were dealt out to its forwarders. */
  lemma FinishedShares<T>(args: seq<nat>, s: State<T>, c: nat)
    requires Inv(args, s) && AllExited(s.lanes) && c in args
    ensures c < |s.chans| && Interleaving(s.chans[c].sent, ShareOf(args, Passed(s.lanes), c))
  {
    AllExitedHavePassedAll(args, s);
    var k :| 0 <= k < |args| && args[k] == c;
    assert LaneOk(s.lanes[k], args[k], s.chans);
    forall j | 0 <= j < |args|
      ensures GotFrom(s.lanes, c)[j] == ShareOf(args, Passed(s.lanes), c)[j]
    {
      assert LaneOk(s.lanes[j], args[j], s.chans) && s.lanes[j].hand.Exited?;
    }
    assert GotFrom(s.lanes, c) == ShareOf(args, Passed(s.lanes), c);
  }

  /**
   A closed output has every value sent on the inputs, each once, and all inputs are closed. Each
   forwarder kept the order; when no channel was passed twice so did the output.
   */
  lemma ClosedOutputIsMerged<T>(channels: nat, args: seq<nat>, schedule: seq<Action<T>>, s: State<T>)
    requires Reaches(channels, args, schedule, s) && s.outCloses > 0
    ensures s.outCloses == 1 && |s.chans| == channels && |s.lanes| == |args| && AllExited(s.lanes)
    ensures forall c | c in args :: s.chans[c].closed
    ensures multiset(s.output) == Bag(Inputs(args, s.chans))
    ensures forall k | 0 <= k < |s.lanes| :: Subsequence(s.lanes[k].passed, s.output)
    ensures forall k | 0 <= k < |s.lanes| :: Subsequence(s.lanes[k].passed, s.chans[args[k]].sent)
    ensures Distinct(args) ==> Interleaving(s.output, Inputs(args, s.chans))
    ensures Distinct(args) ==> forall c | c in args :: Subsequence(s.chans[c].sent, s.output)
  {
    ReachableInv(channels, args, schedule, s);
    ChannelsStay(Init<T>(channels, args), schedule, s);
    AllExitedHavePassedAll(args, s);
    FinishedOutput(args, s);
    forall k | 0 <= k < |s.lanes|
      ensures Subsequence(s.lanes[k].passed, s.output) && Subsequence(s.lanes[k].passed, s.chans[args[k]].sent)
    {
      InterleavingKeepsOrder(s.output, Passed(s.lanes), k);
      assert LaneOk(s.lanes[k], args[k], s.chans);
      InterleavingKeepsOrder(s.chans[args[k]].sent, GotFrom(s.lanes, args[k]), k);
    }
    if Distinct(args) {
      forall c | c in args ensures Subsequence(s.chans[c].sent, s.output) {
        InterleavingKeepsOrder(s.output, Inputs(args, s.chans), c);
      }
    }
  }

  lemma {:induction false} ChannelsStay<T>(s: State<T>, schedule: seq<Action<T>>, t: State<T>)
    requires Replay(s, schedule) == Some(t)
    ensures |t.chans| == |s.chans|
    decreases schedule
  {
    if schedule != [] {
      ChannelsStay(Step(s, schedule[0]).value, schedule[1..], t);
    }
  }

  // ----- progress -----

  /** A forwarder that can only wait: for its sender, or for a reader of out. */
  predicate Blocked<T>(s: State<T>, lane: Lane<T>) {
    || (lane.hand.Receiving? && lane.input < |s.chans|
        && !s.chans[lane.input].closed && s.chans[lane.input].taken == |s.chans[lane.input].sent|)
    || (lane.hand.Holding? && s.wanted == 0)
  }

  predicate Stopped<T>(s: State<T>) {
    || s.outCloses == 1
    || (!AllExited(s.lanes) && forall k | 0 <= k < |s.lanes| :: s.lanes[k].hand.Exited? || Blocked(s, s.lanes[k]))
  }

  lemma BlockedCannotStep<T>(args: seq<nat>, s: State<T>, a: Action<T>)
    requires |s.lanes| == |args| && forall k | 0 <= k < |s.lanes| :: LaneOk(s.lanes[k], args[k], s.chans)
    requires Stopped(s) && (s.outCloses == 1 ==> AllExited(s.lanes)) && Internal(a)
    ensures Step(s, a).None?
  {
    if !a.CloseOut? && a.k < |s.lanes| {
      assert s.lanes[a.k].hand.Exited? || Blocked(s, s.lanes[a.k]);
    }
  }

  lemma UnblockedCanStep<T>(args: seq<nat>, s: State<T>, k: nat) returns (a: Action<T>)
    requires ChannelsOk(s.chans) && k < |s.lanes| == |args| && LaneOk(s.lanes[k], args[k], s.chans)
    requires !s.lanes[k].hand.Exited? && !Blocked(s, s.lanes[k])
    ensures Internal(a) && Step(s, a).Some?
  {
    var ch := s.chans[s.lanes[k].input];
    a := if s.lanes[k].hand.Holding? then Forward(k) else if ch.taken < |ch.sent| then Receive(k) else Leave(k);
  }

  /**
   Merge is stuck exactly when it is finished, or every forwarder left waits on an open empty input or
   holds a value that nobody receives.
   */
  lemma StuckIffWaiting<T(!new)>(channels: nat, args: seq<nat>, schedule: seq<Action<T>>, s: State<T>)
    requires Reaches(channels, args, schedule, s)
    ensures (forall a: Action<T> :: Step(s, a).Some? ==> !Internal(a)) <==> Stopped(s)
  {
    ReachableInv(channels, args, schedule, s);
    if Stopped(s) {
      forall a: Action<T> | Internal(a) ensures Step(s, a).None? {
        BlockedCannotStep(args, s, a);
      }
    } else if AllExited(s.lanes) {
      assert Step(s, CloseOut).Some?;
    } else {
      var k :| 0 <= k < |s.lanes| && !s.lanes[k].hand.Exited? && !Blocked(s, s.lanes[k]);
      var a := UnblockedCanStep(args, s, k);
    }
  }

  /** What each goroutine may do next, by what it waits for; senders and reader are free. */
  lemma ReadySteps<T>(args: seq<nat>, s: State<T>, k: nat, v: T)
    requires Inv(args, s) && k < |args|
    ensures args[k] < |s.chans|
    ensures var ch := s.chans[args[k]];
            && (Step(s, Send(args[k], v)).Some? <==> !ch.closed)
            && (Step(s, CloseInput(args[k])).Some? <==> !ch.closed)
            && (Step(s, Want).Some? <==> s.outCloses == 0)
            && (Step(s, Receive(k)).Some? <==> s.lanes[k].hand.Receiving? && ch.taken < |ch.sent|)
            && (Step(s, Forward(k)).Some? <==> s.lanes[k].hand.Holding? && s.wanted > 0)
            && (Step(s, Leave(k)).Some? <==> s.lanes[k].hand.Receiving? && ch.closed && ch.taken == |ch.sent|)
  {
    assert LaneOk(s.lanes[k], args[k], s.chans);
  }

  function ChannelWeight<T>(ch: Channel<T>): nat {
    2 * (if ch.taken <= |ch.sent| then |ch.sent| - ch.taken else 0)
  }

  function LaneWeight<T>(lane: Lane<T>): nat {
    match lane.hand case Receiving => 1 case Holding(_) => 2 case Exited => 0
  }

  function Measure<T>(s: State<T>): nat {
    Total(s.chans, ChannelWeight) + Total(s.lanes, LaneWeight) + if s.outCloses == 0 then 1 else 0
  }

  function Sends<T>(schedule: seq<Action<T>>): nat {
    if schedule == [] then 0 else (if schedule[0].Send? then 1 else 0) + Sends(schedule[1..])
  }

  function InternalSteps<T>(schedule: seq<Action<T>>): nat {
    if schedule == [] then 0 else (if Internal(schedule[0]) then 1 else 0) + InternalSteps(schedule[1..])
  }

  lemma ReceiveLowersMeasure<T>(s: State<T>, t: State<T>, k: nat)
    requires Step(s, Receive(k)) == Some(t)
    ensures Measure(t) < Measure(s)
  {
    var c := s.lanes[k].input;
    TotalUpdate(s.lanes, k, t.lanes[k], LaneWeight);
    TotalUpdate(s.chans, c, t.chans[c], ChannelWeight);
  }

  lemma StepLowersMeasure<T>(s: State<T>, a: Action<T>)
    requires Step(s, a).Some?
    ensures Measure(Step(s, a).value) + (if Internal(a) then 1 else 0) <= Measure(s) + (if a.Send? then 2 else 0)
  {
    var t := Step(s, a).value;
    if a.Receive? {
      ReceiveLowersMeasure(s, t, a.k);
    } else if a.Send? || a.CloseInput? {
      TotalUpdate(s.chans, a.c, t.chans[a.c], ChannelWeight);
    } else if a.Forward? || a.Leave? {
      TotalUpdate(s.lanes, a.k, t.lanes[a.k], LaneWeight);
    }
  }

  lemma {:induction false} ReplayBounded<T>(s: State<T>, schedule: seq<Action<T>>)
    requires Replay(s, schedule).Some?
    ensures InternalSteps(schedule) <= Measure(s) + 2 * Sends(schedule)
    decreases schedule
  {
    if schedule != [] {
      StepLowersMeasure(s, schedule[0]);
      ReplayBounded(Step(s, schedule[0]).value, schedule[1..]);
    }
  }

  /** Merge itself takes at most two steps a value sent, one a forwarder and one more, whatever the reader does. */
  lemma EveryMergeIsFinite<T>(channels: nat, args: seq<nat>, schedule: seq<Action<T>>)
    requires Arguments(channels, args) && Replay(Init(channels, args), schedule).Some?
    ensures InternalSteps(schedule) <= 2 * Sends(schedule) + |args| + 1
  {
    var s := Init<T>(channels, args);
    ReplayBounded(s, schedule);
    TotalUniform(s.chans, ChannelWeight, 0);
    TotalUniform(s.lanes, LaneWeight, 1);
  }
}
