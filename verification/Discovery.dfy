/**
 How a starting node finds out whether to bootstrap a cluster, lead one as the
 oldest node, or join one that is there: rounds of status polls over the
 listed hosts, with a budget for waiting that failed polls and completed
 rounds share. The peers' replies are arbitrary.
 */
module Discovery {
  import opened ByteStrings

  const BOOTSTRAP_WAIT_S: nat := 60
  const KV_PORT: Bytes := [58, 54, 51, 48, 48]     // :6300

  datatype Status = Status(replica: nat, binding: Bytes, instantiated: int, started: int)

  /** What comes of asking one peer: its status and, for a peer that has
      started, whether it knows of a bootstrapped cluster and whether it then
      lets the node join. */
  datatype Reply =
    | Failed
    | Garbled
    | Says(status: Status, bootstrapped: bool, joined: bool)

  datatype Config = Config(hosts: seq<Bytes>, binding: Bytes, replica: nat, instantiated: int, isIPv4: Bytes -> bool)

  /** A host's reply to the n-th poll. */
  type Peers = (Bytes, nat) -> Reply

  datatype Exit =
    | Bootstrapping
    | Oldest
    | Peering
    | Contention       // another node was instantiated at the same time
    | OutOfTime

  type Members = map<nat, Bytes>

  /** What a round makes of one host: it is passed over, or asked until it
      replies, which it does at poll `at`. Polls are numbered from 0 on. */
  datatype Heard =
    | Skipped
    | Answered(at: nat, reply: Reply)

  type Round = seq<Heard>

  // --------------------------------------------------------- what was heard

  predicate Skips(cfg: Config, h: Bytes) {
    h == cfg.binding || !cfg.isIPv4(h)
  }

  predicate Started(heard: Heard) {
    heard.Answered? && heard.reply.Says? && heard.reply.status.started > 0
  }

  /** The host knows of a cluster and lets the node join. */
  predicate Joins(heard: Heard) {
    Started(heard) && heard.reply.bootstrapped && heard.reply.joined
  }

  predicate Younger(cfg: Config, heard: Heard) {
    heard.Answered? && heard.reply.Says? && heard.reply.status.instantiated > cfg.instantiated
  }

  /** Asked from poll `from` on, the host fails until it replies at poll `at`. */
  ghost predicate FirstReply(peers: Peers, h: Bytes, from: nat, at: nat) {
    from <= at && !peers(h, at).Failed? && forall k :: from <= k < at ==> peers(h, k).Failed?
  }

  predicate SameInstant(cfg: Config, reply: Reply) {
    reply.Says? && reply.status.instantiated == cfg.instantiated
  }

  ghost predicate Genuine(cfg: Config, peers: Peers, h: Bytes, from: nat, heard: Heard) {
    match heard
    case Skipped => Skips(cfg, h)
    case Answered(at, reply) =>
      !Skips(cfg, h) && FirstReply(peers, h, from, at) && reply == peers(h, at) && !SameInstant(cfg, reply)
  }

  /** The number of the next poll, after a round that began with poll `start`. */
  function PollsAfter(start: nat, round: Round): (n: nat) {
    if round == [] then start
    else
      match round[|round| - 1]
      case Skipped => PollsAfter(start, round[..|round| - 1])
      case Answered(at, _) => at + 1
  }

  /** How many polls of the round failed: all but the one each host answers. */
  function Misses(start: nat, round: Round): (n: int) {
    if round == [] then 0
    else
      var init := round[..|round| - 1];
      match round[|round| - 1]
      case Skipped => Misses(start, init)
      case Answered(at, _) => Misses(start, init) + (at - PollsAfter(start, init))
  }

  /** The first hosts were heard, one after the other. */
  ghost predicate PartOf(cfg: Config, peers: Peers, start: nat, round: Round) {
    |round| <= |cfg.hosts| &&
    if round == [] then true
    else
      var n := |round| - 1;
      PartOf(cfg, peers, start, round[..n])
      && Genuine(cfg, peers, cfg.hosts[n], PollsAfter(start, round[..n]), round[n])
  }

  /** A round goes through all hosts, or up to one that lets the node join. */
  ghost predicate RoundOf(cfg: Config, peers: Peers, start: nat, round: Round) {
    && PartOf(cfg, peers, start, round)
    && (forall i :: 0 <= i < |round| - 1 ==> !Joins(round[i]))
    && (|round| == |cfg.hosts| || Joined(round))
  }

  /** A round on its way: no host let the node join, the next one is asked. */
  ghost predicate Halfway(cfg: Config, peers: Peers, start: nat, round: Round) {
    && PartOf(cfg, peers, start, round) && |round| < |cfg.hosts| && !Skips(cfg, cfg.hosts[|round|])
    && forall i :: 0 <= i < |round| ==> !Joins(round[i])
  }

  /** The host after those heard fails until the budget is spent, or gives this
      node's own time. */
  ghost predicate GivesUp(cfg: Config, peers: Peers, start: nat, cut: Round, exit: Exit, failed: int, polls: nat)
    requires |cut| < |cfg.hosts|
  {
    var h, from := cfg.hosts[|cut|], PollsAfter(start, cut);
    if exit.OutOfTime? then
      from < polls && (forall k :: from <= k < polls ==> peers(h, k).Failed?)
      && failed == Misses(start, cut) + (polls - from)
    else
      exit.Contention? && polls > 0 && FirstReply(peers, h, from, polls - 1)
      && SameInstant(cfg, peers(h, polls - 1)) && failed == Misses(start, cut) + (polls - 1 - from)
  }

  predicate Joined(round: Round) {
    round != [] && Joins(round[|round| - 1])
  }

  /** Every host was heard, and is younger. */
  predicate AllYounger(cfg: Config, round: Round) {
    |round| == |cfg.hosts| && forall i :: 0 <= i < |round| ==> Younger(cfg, round[i])
  }

  /** The last started host of the round knows of no cluster. */
  predicate NoCluster(round: Round) {
    if round == [] then false
    else
      var last := round[|round| - 1];
      if Started(last) then !last.reply.bootstrapped else NoCluster(round[..|round| - 1])
  }

  ghost function Verdict(cfg: Config, round: Round): (r: Option<Exit>) {
    if NoCluster(round) then Some(Bootstrapping)
    else if AllYounger(cfg, round) then Some(Oldest)
    else if Joined(round) then Some(Peering)
    else None
  }

  /** The members known after one more reply. */
  function Learn(members: Members, heard: Heard): (ms: Members) {
    if Joins(heard) then map[]
    else if heard.Answered? && heard.reply.Says? then
      members[heard.reply.status.replica := heard.reply.status.binding + KV_PORT]
    else members
  }

  function LearnAll(members: Members, round: Round): (ms: Members) {
    if round == [] then members else Learn(LearnAll(members, round[..|round| - 1]), round[|round| - 1])
  }

  function Known(cfg: Config, rounds: seq<Round>): (ms: Members) {
    if rounds == [] then map[cfg.replica := cfg.binding + KV_PORT]
    else LearnAll(Known(cfg, rounds[..|rounds| - 1]), rounds[|rounds| - 1])
  }

  /** The number of the next poll after all these rounds. */
  function Polls(rounds: seq<Round>): (n: nat) {
    if rounds == [] then 0 else PollsAfter(Polls(rounds[..|rounds| - 1]), rounds[|rounds| - 1])
  }

  function AllMisses(rounds: seq<Round>): (n: int) {
    if rounds == [] then 0
    else
      var init := rounds[..|rounds| - 1];
      AllMisses(init) + Misses(Polls(init), rounds[|rounds| - 1])
  }

  ghost predicate Inconclusive(cfg: Config, peers: Peers, rounds: seq<Round>) {
    if rounds == [] then true
    else
      var init, last := rounds[..|rounds| - 1], rounds[|rounds| - 1];
      Inconclusive(cfg, peers, init) && RoundOf(cfg, peers, Polls(init), last) && Verdict(cfg, last).None?
  }

  predicate Starts(exit: Exit) {
    exit.Bootstrapping? || exit.Oldest? || exit.Peering?
  }

  /** How the loop ended: after `rounds` of which only the last may be
      conclusive, and, if it ended within a round, the part of that heard. */
  datatype End = End(exit: Exit, failed: nat, polls: nat, rounds: seq<Round>, cut: Round)

  /** The node gave up in the middle of a round. */
  ghost predicate Broke(cfg: Config, peers: Peers, e: End) {
    && Inconclusive(cfg, peers, e.rounds) && Halfway(cfg, peers, Polls(e.rounds), e.cut)
    && GivesUp(cfg, peers, Polls(e.rounds), e.cut, e.exit, e.failed - AllMisses(e.rounds), e.polls)
    && e.failed + |e.rounds| <= BOOTSTRAP_WAIT_S
    && (e.failed + |e.rounds| == BOOTSTRAP_WAIT_S <==> e.exit.OutOfTime?)
  }

  /** The budget ran out with a round that decided nothing. */
  ghost predicate RanOut(cfg: Config, peers: Peers, e: End) {
    && e.exit.OutOfTime? && e.cut == [] && Inconclusive(cfg, peers, e.rounds)
    && e.polls == Polls(e.rounds) && e.failed == AllMisses(e.rounds)
    && e.failed + |e.rounds| == BOOTSTRAP_WAIT_S
  }

  ghost predicate Concluded(cfg: Config, peers: Peers, e: End) {
    e.rounds != [] && e.cut == [] && e.failed + |e.rounds| <= BOOTSTRAP_WAIT_S &&
    var before, last := e.rounds[..|e.rounds| - 1], e.rounds[|e.rounds| - 1];
    && Inconclusive(cfg, peers, before) && RoundOf(cfg, peers, Polls(before), last)
    && Verdict(cfg, last) == Some(e.exit)
    && e.polls == Polls(e.rounds) && e.failed == AllMisses(e.rounds)
  }

  /** Why a node left the loop as it did. */
  ghost predicate Explained(cfg: Config, peers: Peers, e: End, members: Members, join: bool) {
    match e.exit
    case OutOfTime => RanOut(cfg, peers, e) || Broke(cfg, peers, e)
    case Contention => Broke(cfg, peers, e)
    case _ => Concluded(cfg, peers, e) && members == Known(cfg, e.rounds) && join == e.exit.Peering?
  }

  // --------------------------------------------------------------- the loop

  /** How many hosts of the round so far are younger. */
  function CountYounger(cfg: Config, round: Round): (n: nat)
    ensures n <= |round|
  {
    if round == [] then 0
    else
      var init, last := round[..|round| - 1], round[|round| - 1];
      CountYounger(cfg, init) + (if Younger(cfg, last) then 1 else 0)
  }

  lemma {:induction false} CountsAll(cfg: Config, round: Round)
    ensures CountYounger(cfg, round) == |round| <==> forall i :: 0 <= i < |round| ==> Younger(cfg, round[i])
  {
    if round != [] {
      var init := round[..|round| - 1];
      CountsAll(cfg, init);
      assert forall i :: 0 <= i < |init| ==> init[i] == round[i];
    }
  }

  /** Some started host knows of no cluster, and none started comes after it. */
  lemma {:induction false} NoClusterMeans(round: Round)
    ensures NoCluster(round) <==>
            exists i :: 0 <= i < |round| && Started(round[i]) && !round[i].reply.bootstrapped
                        && forall j :: i < j < |round| ==> !Started(round[j])
  {
    if round != [] {
      var n := |round| - 1;
      var init := round[..n];
      if !Started(round[n]) {
        NoClusterMeans(init);
        if NoCluster(init) {
          var i :| 0 <= i < |init| && Started(init[i]) && !init[i].reply.bootstrapped
                   && forall j :: i < j < |init| ==> !Started(init[j]);
          assert round[i] == init[i] && forall j :: i < j < n ==> round[j] == init[j];
        }
        if i :| 0 <= i < |round| && Started(round[i]) && !round[i].reply.bootstrapped
                && forall j :: i < j < |round| ==> !Started(round[j]) {
          assert round[i] == init[i] && forall j :: i < j < n ==> round[j] == init[j];
        }
      }
    }
  }

  /** What connect's variables hold after the hosts heard so far. */
  datatype Tally = Tally(older: nat, bootstrap: bool, members: Members, polls: nat, missed: int)

  function Noting(cfg: Config, t: Tally, heard: Heard): (r: Tally) {
    Tally(t.older + (if Younger(cfg, heard) then 1 else 0),
      if Started(heard) then !heard.reply.bootstrapped else t.bootstrap,
      Learn(t.members, heard),
      if heard.Skipped? then t.polls else heard.at + 1,
      t.missed + if heard.Skipped? then 0 else heard.at - t.polls)
  }

  ghost predicate Tallies(cfg: Config, peers: Peers, start: nat, before: Members, round: Round, t: Tally) {
    && PartOf(cfg, peers, start, round)
    && t.older == CountYounger(cfg, round)
    && t.bootstrap == NoCluster(round)
    && t.members == LearnAll(before, round)
    && t.polls == PollsAfter(start, round)
    && t.missed == Misses(start, round)
  }

  lemma {:induction false} PartAt(cfg: Config, peers: Peers, start: nat, round: Round, i: nat)
    requires PartOf(cfg, peers, start, round) && i < |round|
    ensures Genuine(cfg, peers, cfg.hosts[i], PollsAfter(start, round[..i]), round[i])
  {
    var n := |round| - 1;
    if i < n {
      PartAt(cfg, peers, start, round[..n], i);
      assert round[..n][..i] == round[..i];
    }
  }

  lemma Hear(cfg: Config, peers: Peers, start: nat, before: Members, round: Round, t: Tally, heard: Heard)
    requires Tallies(cfg, peers, start, before, round, t) && |round| < |cfg.hosts|
    requires Genuine(cfg, peers, cfg.hosts[|round|], t.polls, heard)
    ensures Tallies(cfg, peers, start, before, round + [heard], Noting(cfg, t, heard))
  {
    var more := round + [heard];
    assert more[..|round|] == round;
  }

  /** getNodeStatus: poll one host until it replies or the budget is spent. */
  method GetNodeStatus(peers: Peers, h: Bytes, waited: nat, polls: nat)
    returns (reply: Reply, waited': nat, polls': nat)
    requires waited < BOOTSTRAP_WAIT_S
    ensures waited <= waited' <= BOOTSTRAP_WAIT_S && polls < polls'
    ensures reply.Failed? <==> waited' == BOOTSTRAP_WAIT_S
    ensures reply == peers(h, polls' - 1)
    ensures forall k :: polls <= k < polls' - 1 ==> peers(h, k).Failed?
    ensures polls' - polls == waited' - waited + (if reply.Failed? then 0 else 1)
  {
    waited', polls' := waited, polls;
    reply := peers(h, polls');
    while reply.Failed?
      invariant waited <= waited' < BOOTSTRAP_WAIT_S && polls' - polls == waited' - waited
      invariant reply == peers(h, polls') && forall k :: polls <= k < polls' ==> peers(h, k).Failed?
      decreases BOOTSTRAP_WAIT_S - waited'
    {
      waited', polls' := waited' + 1, polls' + 1;
      if waited' >= BOOTSTRAP_WAIT_S {
        return;
      }
      reply := peers(h, polls');
    }
    polls' := polls' + 1;
  }

  datatype Progress = Completed | GaveUp(exit: Exit)

  /** One host that replied: note what it says. The second query, for a cluster
      that is up, is never repeated. */
  method Note(cfg: Config, t: Tally, reply: Reply) returns (t': Tally, joined: bool)
    requires !reply.Failed? && t.polls > 0
    ensures joined == Joins(Answered(t.polls - 1, reply))
    ensures t' == Tally(t.older + (if Younger(cfg, Answered(t.polls - 1, reply)) then 1 else 0),
                        if Started(Answered(t.polls - 1, reply)) then !reply.bootstrapped else t.bootstrap,
                        Learn(t.members, Answered(t.polls - 1, reply)), t.polls, t.missed)
  {
    if reply.Garbled? {
      return t, false;
    }
    var status := reply.status;
    var olderThan, bootstrap, members := t.older, t.bootstrap, t.members;
    joined := false;
    if status.instantiated > cfg.instantiated {
      olderThan := olderThan + 1;
    }
    members := members[status.replica := status.binding + KV_PORT];
    if status.started > 0 {
      var checkedBootstrapped := 0;
      if reply.bootstrapped {
        bootstrap := false;
        if reply.joined {
          members := map[];
          joined := true;
        }
      } else if checkedBootstrapped > -1 {
        bootstrap := true;
      } else {
        assert false;
      }
    }
    t' := Tally(olderThan, bootstrap, members, t.polls, t.missed);
  }

  /** One host of a round: pass it over, or ask it and note its reply. */
  method Ask(cfg: Config, peers: Peers, start: nat, before: Members, waited: nat, h: Bytes, t: Tally,
      ghost round: Round)
    returns (progress: Progress, t': Tally, joined: bool, ghost round': Round)
    requires |round| < |cfg.hosts| && h == cfg.hosts[|round|] && Tallies(cfg, peers, start, before, round, t)
    requires 0 <= t.missed < BOOTSTRAP_WAIT_S - waited
    ensures t.missed <= t'.missed <= BOOTSTRAP_WAIT_S - waited && t'.polls - t.polls <= t'.missed - t.missed + 1
    ensures progress.Completed? ==> t'.missed < BOOTSTRAP_WAIT_S - waited
                                    && Tallies(cfg, peers, start, before, round', t')
    ensures progress.Completed? ==> |round'| == |round| + 1 && joined == Joins(round'[|round|])
                                    && forall j :: 0 <= j < |round| ==> round'[j] == round[j]
    ensures progress.GaveUp? ==> !Skips(cfg, h) && GivesUp(cfg, peers, start, round, progress.exit, t'.missed, t'.polls)
                                 && (t'.missed + waited == BOOTSTRAP_WAIT_S <==> progress.exit == OutOfTime)
  {
    progress, t', joined, round' := Completed, t, false, round + [Skipped];
    if h == cfg.binding || !cfg.isIPv4(h) {
      Hear(cfg, peers, start, before, round, t, Skipped);
      return;
    }
    var reply, waited', polls' := GetNodeStatus(peers, h, waited + t.missed, t.polls);
    t' := t.(polls := polls', missed := waited' - waited);
    if reply.Failed? {
      progress := GaveUp(OutOfTime);
      return;
    }
    if reply.Says? && reply.status.instantiated == cfg.instantiated {
      progress := GaveUp(Contention);
      return;
    }
    Hear(cfg, peers, start, before, round, t, Answered(polls' - 1, reply));
    round' := round + [Answered(polls' - 1, reply)];
    t', joined := Note(cfg, t', reply);
  }

  /** One round over the hosts. It starts with neither bootstrap nor readyToJoin
      set, since a round that sets one of them is the last. */
  method Poll(cfg: Config, peers: Peers, before: Members, waited: nat, polls: nat)
    returns (progress: Progress, t: Tally, readyToJoin: bool, ghost round: Round)
    requires waited < BOOTSTRAP_WAIT_S
    ensures 0 <= t.missed <= BOOTSTRAP_WAIT_S - waited && t.polls <= polls + t.missed + |cfg.hosts|
    ensures progress.Completed? ==> RoundOf(cfg, peers, polls, round) && Tallies(cfg, peers, polls, before, round, t)
    ensures progress.Completed? ==> readyToJoin == Joined(round) && t.missed + waited < BOOTSTRAP_WAIT_S
    ensures progress.GaveUp? ==> Halfway(cfg, peers, polls, round)
                                 && GivesUp(cfg, peers, polls, round, progress.exit, t.missed, t.polls)
                                 && (t.missed + waited == BOOTSTRAP_WAIT_S <==> progress.exit == OutOfTime)
  {
    progress, t, readyToJoin, round := Completed, Tally(0, false, before, polls, 0), false, [];
    for i := 0 to |cfg.hosts|
      invariant 0 <= t.missed < BOOTSTRAP_WAIT_S - waited && t.polls <= polls + t.missed + i
      invariant progress.Completed? && |round| == i && forall j :: 0 <= j < i ==> !Joins(round[j])
      invariant Tallies(cfg, peers, polls, before, round, t)
    {
      ghost var round';
      progress, t, readyToJoin, round' := Ask(cfg, peers, polls, before, waited, cfg.hosts[i], t, round);
      if progress.GaveUp? {
        return;
      }
      round := round';
      if readyToJoin {
        break;
      }
    }
  }

  lemma RoundsSnoc(cfg: Config, before: seq<Round>, round: Round)
    ensures var rounds := before + [round];
            && rounds[..|before|] == before && rounds[|before|] == round
            && Known(cfg, rounds) == LearnAll(Known(cfg, before), round)
            && Polls(rounds) == PollsAfter(Polls(before), round)
            && AllMisses(rounds) == AllMisses(before) + Misses(Polls(before), round)
  {
    var rounds := before + [round];
    assert rounds[..|before|] == before;
  }

  /** So many answered polls at most, in that many rounds. */
  function Answers(rounds: nat, hosts: nat): (n: nat) {
    if rounds == 0 then 0 else Answers(rounds - 1, hosts) + hosts
  }

  lemma OneRoundMore(cfg: Config, rounds: seq<Round>, round: Round)
    ensures Answers(|rounds| + 1, |cfg.hosts|) == Answers(|rounds|, |cfg.hosts|) + |cfg.hosts|
    ensures Answers(|rounds + [round]|, |cfg.hosts|) == Answers(|rounds|, |cfg.hosts|) + |cfg.hosts|
    ensures Answers(|rounds + [round]| + 1, |cfg.hosts|) == Answers(|rounds|, |cfg.hosts|) + |cfg.hosts| + |cfg.hosts|
  {
  }

  /** Between rounds: nothing is decided and there is time left. */
  ghost predicate Going(cfg: Config, peers: Peers, rounds: seq<Round>, failed: nat, polls: nat, members: Members) {
    && Inconclusive(cfg, peers, rounds) && failed + |rounds| < BOOTSTRAP_WAIT_S
    && failed == AllMisses(rounds) && polls == Polls(rounds) && members == Known(cfg, rounds)
    && polls <= failed + Answers(|rounds|, |cfg.hosts|)
  }

  /** What a completed round decides. */
  lemma RoundEnds(cfg: Config, peers: Peers, before: seq<Round>, failed: nat, polls: nat, members: Members,
      round: Round, t: Tally)
    requires Going(cfg, peers, before, failed, polls, members) && RoundOf(cfg, peers, polls, round)
    requires Tallies(cfg, peers, polls, members, round, t)
    requires 0 <= t.missed < BOOTSTRAP_WAIT_S - failed - |before| && t.polls <= polls + t.missed + |cfg.hosts|
    ensures var rounds := before + [round];
            var exit := Decision(cfg, t.bootstrap, t.older, Joined(round), failed + t.missed + |before| + 1);
            && (exit.Some? ==> Explained(cfg, peers, End(exit.value, failed + t.missed, t.polls, rounds, []), t.members,
                                         exit.value.Peering?))
            && (exit.None? ==> Going(cfg, peers, rounds, failed + t.missed, t.polls, t.members))
            && t.polls <= failed + t.missed + Answers(|rounds| + 1, |cfg.hosts|)
  {
    RoundsSnoc(cfg, before, round);
    OneRoundMore(cfg, before, round);
    Decides(cfg, peers, polls, round);
  }

  /** The tests after a round, in their order. */
  function Decision(cfg: Config, bootstrap: bool, olderThan: nat, readyToJoin: bool, waited: nat): (r: Option<Exit>) {
    if bootstrap then Some(Bootstrapping)
    else if olderThan == |cfg.hosts| then Some(Oldest)
    else if readyToJoin then Some(Peering)
    else if waited >= BOOTSTRAP_WAIT_S then Some(OutOfTime)
    else None
  }

  lemma Decides(cfg: Config, peers: Peers, start: nat, round: Round)
    requires RoundOf(cfg, peers, start, round)
    ensures forall waited: nat ::
              var exit := Decision(cfg, NoCluster(round), CountYounger(cfg, round), Joined(round), waited);
              var verdict := Verdict(cfg, round);
              exit == if verdict.Some? then verdict else if waited >= BOOTSTRAP_WAIT_S then Some(OutOfTime) else None
  {
    CountsAll(cfg, round);
  }

  lemma RoundBreaks(cfg: Config, peers: Peers, before: seq<Round>, failed: nat, polls: nat, members: Members,
      cut: Round, exit: Exit, missed: nat, polls': nat, members': Members)
    requires Going(cfg, peers, before, failed, polls, members) && Halfway(cfg, peers, polls, cut)
    requires GivesUp(cfg, peers, polls, cut, exit, missed, polls') && polls' <= polls + missed + |cfg.hosts|
    requires failed + missed + |before| <= BOOTSTRAP_WAIT_S
    requires failed + missed + |before| == BOOTSTRAP_WAIT_S <==> exit.OutOfTime?
    ensures Explained(cfg, peers, End(exit, failed + missed, polls', before, cut), members', false)
    ensures polls' <= failed + missed + Answers(|before| + 1, |cfg.hosts|)
  {
    OneRoundMore(cfg, before, cut);
    assert Broke(cfg, peers, End(exit, failed + missed, polls', before, cut));
  }

  // ----------------------------------------------- what the node starts with

  lemma {:induction false} KeepsSelf(members: Members, round: Round, self: nat)
    requires self in members && forall i :: 0 <= i < |round| ==> !Joins(round[i])
    ensures self in LearnAll(members, round)
  {
    if round != [] { KeepsSelf(members, round[..|round| - 1], self); }
  }

  /** Rounds that decided nothing leave the node among the members. */
  lemma {:induction false} KnowsSelf(cfg: Config, peers: Peers, rounds: seq<Round>)
    requires Inconclusive(cfg, peers, rounds)
    ensures cfg.replica in Known(cfg, rounds)
  {
    if rounds != [] {
      var n := |rounds| - 1;
      var last := rounds[n];
      assert Verdict(cfg, last).None? && RoundOf(cfg, peers, Polls(rounds[..n]), last);
      assert last != [] ==> !Joins(last[|last| - 1]);
      KnowsSelf(cfg, peers, rounds[..n]);
      KeepsSelf(Known(cfg, rounds[..n]), last, cfg.replica);
    }
  }

  /** A replica starts either with members and without joining, or joining and
      without members. */
  predicate Consistent(members: Members, join: bool) {
    join <==> members == map[]
  }

  /** Main theorem: BOOTSTRAPPING starts among known members with itself,
      PEERING joins with none, and so does OLDEST start with itself unless a
      host let it join in that same round; exactly then it is told neither
      to join nor about anybody. */
  lemma StartIsConsistentUnlessJoinedAsOldest(cfg: Config, peers: Peers, e: End, members: Members, join: bool)
    requires Explained(cfg, peers, e, members, join) && Starts(e.exit)
    ensures e.rounds != [] && var joined := Joined(e.rounds[|e.rounds| - 1]);
            && (e.exit.Peering? ==> join && members == map[])
            && (e.exit.Bootstrapping? ==> !join && cfg.replica in members)
            && (e.exit.Oldest? ==> !join && (if joined then members == map[] else cfg.replica in members))
            && (Consistent(members, join) <==> !(e.exit.Oldest? && joined))
  {
    var n := |e.rounds| - 1;
    var before, last := e.rounds[..n], e.rounds[n];
    if Joined(last) {
      assert LearnAll(Known(cfg, before), last) == map[];
    } else {
      KnowsSelf(cfg, peers, before);
      assert last != [] ==> !Joins(last[|last| - 1]);
      KeepsSelf(Known(cfg, before), last, cfg.replica);
    }
  }

  // ------------------------------------------------- who the members are

  /** The i-th host of the round gave this replica number. */
  predicate GivesIn(round: Round, i: int, n: nat) {
    0 <= i < |round| && round[i].Answered? && round[i].reply.Says? && round[i].reply.status.replica == n
  }

  /** It was the last one of the round to do so. */
  ghost predicate LastIn(round: Round, i: int, n: nat) {
    GivesIn(round, i, n) && forall j :: i < j ==> !GivesIn(round, j, n)
  }

  ghost predicate SilentOn(round: Round, n: nat) {
    forall i :: !GivesIn(round, i, n)
  }

  /** The last reply of all rounds to give this number is that one. */
  ghost predicate LastOf(rounds: seq<Round>, r: int, i: int, n: nat) {
    0 <= r < |rounds| && LastIn(rounds[r], i, n) && forall q :: r < q < |rounds| ==> SilentOn(rounds[q], n)
  }

  ghost predicate NeverGiven(rounds: seq<Round>, n: nat) {
    forall r :: 0 <= r < |rounds| ==> SilentOn(rounds[r], n)
  }

  ghost predicate NoneJoins(round: Round) {
    forall i :: 0 <= i < |round| ==> !Joins(round[i])
  }

  lemma SilentInit(round: Round, n: nat)
    requires round != [] && SilentOn(round, n)
    ensures SilentOn(round[..|round| - 1], n)
  {
    var init := round[..|round| - 1];
    forall i ensures !GivesIn(init, i, n) { assert !GivesIn(round, i, n); }
  }

  lemma {:induction false} LearnsNothing(members: Members, round: Round, n: nat)
    requires NoneJoins(round) && SilentOn(round, n)
    ensures var ms := LearnAll(members, round); (n in ms <==> n in members) && (n in ms ==> ms[n] == members[n])
  {
    if round != [] {
      SilentInit(round, n);
      assert !GivesIn(round, |round| - 1, n);
      LearnsNothing(members, round[..|round| - 1], n);
    }
  }

  lemma {:induction false} LearnsLast(members: Members, round: Round, i: int, n: nat)
    requires NoneJoins(round) && LastIn(round, i, n)
    ensures var ms := LearnAll(members, round); n in ms && ms[n] == round[i].reply.status.binding + Spell(":6300")
    decreases |round|
  {
    var last := |round| - 1;
    assert KV_PORT == Spell(":6300");
    if i < last {
      var init := round[..last];
      assert !GivesIn(round, last, n);
      forall j | i < j ensures !GivesIn(init, j, n) { assert !GivesIn(round, j, n); }
      LearnsLast(members, init, i, n);
    }
  }

  lemma {:induction false} KnowsLast(cfg: Config, rounds: seq<Round>, r: int, i: int, n: nat)
    requires (forall q :: 0 <= q < |rounds| ==> NoneJoins(rounds[q])) && LastOf(rounds, r, i, n)
    ensures var ms := Known(cfg, rounds);
            n in ms && ms[n] == rounds[r][i].reply.status.binding + Spell(":6300")
    decreases |rounds|
  {
    var last := |rounds| - 1;
    var init := rounds[..last];
    if r < last {
      assert SilentOn(rounds[last], n);
      KnowsLast(cfg, init, r, i, n);
      LearnsNothing(Known(cfg, init), rounds[last], n);
    } else {
      LearnsLast(Known(cfg, init), rounds[last], i, n);
    }
  }

  lemma {:induction false} KnowsOnlySelf(cfg: Config, rounds: seq<Round>, n: nat)
    requires (forall q :: 0 <= q < |rounds| ==> NoneJoins(rounds[q])) && NeverGiven(rounds, n)
    ensures var ms := Known(cfg, rounds);
            (n in ms <==> n == cfg.replica) && (n in ms ==> ms[n] == cfg.binding + Spell(":6300"))
    decreases |rounds|
  {
    assert KV_PORT == Spell(":6300");
    if rounds != [] {
      var last := |rounds| - 1;
      KnowsOnlySelf(cfg, rounds[..last], n);
      LearnsNothing(Known(cfg, rounds[..last]), rounds[last], n);
    }
  }

  lemma {:induction false} UndecidedJoinsNone(cfg: Config, peers: Peers, rounds: seq<Round>, q: nat)
    requires Inconclusive(cfg, peers, rounds) && q < |rounds|
    ensures NoneJoins(rounds[q])
    decreases |rounds|
  {
    var n := |rounds| - 1;
    if q < n {
      UndecidedJoinsNone(cfg, peers, rounds[..n], q);
    } else {
      assert Verdict(cfg, rounds[n]).None? && RoundOf(cfg, peers, Polls(rounds[..n]), rounds[n]);
    }
  }

  /** The members are the replicas that the hosts named in any of the rounds,
      each where the last reply that named it says it is, and the node itself,
      unless somebody else has its number; all at port 6300. */
  ghost predicate MembersAre(cfg: Config, rounds: seq<Round>, members: Members) {
    && (forall r, i, n :: LastOf(rounds, r, i, n) ==>
          n in members && members[n] == rounds[r][i].reply.status.binding + Spell(":6300"))
    && (forall n :: NeverGiven(rounds, n) ==>
          (n in members <==> n == cfg.replica) && (n in members ==> members[n] == cfg.binding + Spell(":6300")))
  }

  /** Main theorem: a node that starts a cluster without having been let in by
      another starts it with exactly the members it was told about. */
  lemma MembersAreWhatWasHeard(cfg: Config, peers: Peers, e: End, members: Members, join: bool)
    requires Explained(cfg, peers, e, members, join) && Starts(e.exit) && !Joined(e.rounds[|e.rounds| - 1])
    ensures MembersAre(cfg, e.rounds, members)
  {
    var n := |e.rounds| - 1;
    forall q | 0 <= q < |e.rounds| ensures NoneJoins(e.rounds[q]) {
      if q < n { UndecidedJoinsNone(cfg, peers, e.rounds[..n], q); }
    }
    forall r, i, k | LastOf(e.rounds, r, i, k)
      ensures k in members && members[k] == e.rounds[r][i].reply.status.binding + Spell(":6300")
    {
      KnowsLast(cfg, e.rounds, r, i, k);
    }
    forall k | NeverGiven(e.rounds, k)
      ensures (k in members <==> k == cfg.replica) && (k in members ==> members[k] == cfg.binding + Spell(":6300"))
    {
      KnowsOnlySelf(cfg, e.rounds, k);
    }
  }

  // ------------------------------------------------ why the loop ended

  /** Some host that has started knows of no cluster, and no started host was
      heard after it. */
  ghost predicate LastStartedHasNone(round: Round) {
    exists i :: 0 <= i < |round| && round[i].Answered? && round[i].reply.Says? && round[i].reply.status.started > 0
                && !round[i].reply.bootstrapped
                && forall j :: i < j < |round| && round[j].Answered? && round[j].reply.Says? ==>
                     round[j].reply.status.started <= 0
  }

  /** Every listed host was heard in the round and gave a later time. */
  predicate AllLater(cfg: Config, round: Round) {
    |round| == |cfg.hosts| &&
    forall i :: 0 <= i < |round| ==>
      round[i].Answered? && round[i].reply.Says? && round[i].reply.status.instantiated > cfg.instantiated
  }

  /** The last host heard has started, knows of a cluster, and let the node in. */
  predicate LetIn(round: Round) {
    round != [] && var last := round[|round| - 1];
    last.Answered? && last.reply.Says? && last.reply.status.started > 0 && last.reply.bootstrapped && last.reply.joined
  }

  lemma VerdictIs(cfg: Config, round: Round)
    ensures Verdict(cfg, round) ==
            if LastStartedHasNone(round) then Some(Bootstrapping)
            else if AllLater(cfg, round) then Some(Oldest)
            else if LetIn(round) then Some(Peering)
            else None
  {
    NoClusterMeans(round);
    if NoCluster(round) {
      var i :| 0 <= i < |round| && Started(round[i]) && !round[i].reply.bootstrapped
               && forall j :: i < j < |round| ==> !Started(round[j]);
      assert LastStartedHasNone(round);
    }
  }

  lemma {:induction false} UndecidedBefore(cfg: Config, peers: Peers, rounds: seq<Round>, q: nat)
    requires Inconclusive(cfg, peers, rounds) && q < |rounds|
    ensures Verdict(cfg, rounds[q]).None?
    decreases |rounds|
  {
    if q < |rounds| - 1 { UndecidedBefore(cfg, peers, rounds[..|rounds| - 1], q); }
  }

  /** Main theorem: which round ends the loop, and how. Each complete round but
      the last decided nothing: not that there is no cluster, not that the node is
      the oldest, not that it may join. The first that does decide is the last,
      and the first of the three that holds of it is the exit. */
  lemma FirstDecisionCounts(cfg: Config, peers: Peers, e: End, members: Members, join: bool, q: nat)
    requires Explained(cfg, peers, e, members, join) && q < |e.rounds|
    ensures var round := e.rounds[q];
            if q < |e.rounds| - 1 || !Starts(e.exit) then
              !LastStartedHasNone(round) && !AllLater(cfg, round) && !LetIn(round)
            else
              && (e.exit.Bootstrapping? <==> LastStartedHasNone(round))
              && (e.exit.Oldest? <==> !LastStartedHasNone(round) && AllLater(cfg, round))
              && (e.exit.Peering? <==> !LastStartedHasNone(round) && !AllLater(cfg, round) && LetIn(round))
  {
    VerdictIs(cfg, e.rounds[q]);
    var n := |e.rounds| - 1;
    if !Starts(e.exit) {
      UndecidedBefore(cfg, peers, e.rounds, q);
    } else if q < n {
      UndecidedBefore(cfg, peers, e.rounds[..n], q);
    }
  }

  /** Failed polls and complete rounds stay within 60; the node is out of time if
      and only if they reach it without a decision, and gives up on a peer
      exactly when one replies with the node's own time. */
  lemma GivesUpBecause(cfg: Config, peers: Peers, e: End, members: Members, join: bool)
    requires Explained(cfg, peers, e, members, join)
    ensures e.failed + |e.rounds| <= 60
    ensures e.exit.OutOfTime? <==> !Starts(e.exit) && e.failed + |e.rounds| == 60
    ensures e.exit.Contention? ==> e.polls > 0 && exists h ::
              && h in cfg.hosts && h != cfg.binding && cfg.isIPv4(h) && peers(h, e.polls - 1).Says?
              && peers(h, e.polls - 1).status.instantiated == cfg.instantiated
  {
    if e.exit.Contention? { assert cfg.hosts[|e.cut|] in cfg.hosts; }
  }

  /** What is heard of a host in a round: it is passed over if it is the node
      itself or no IPv4 address, and else what it replied, which was not the
      node's own time. */
  lemma HeardIs(cfg: Config, peers: Peers, start: nat, round: Round, i: nat)
    requires RoundOf(cfg, peers, start, round) && i < |round|
    ensures |round| <= |cfg.hosts| && (|round| == |cfg.hosts| || LetIn(round))
    ensures var h := cfg.hosts[i];
            if h == cfg.binding || !cfg.isIPv4(h) then round[i].Skipped?
            else
              && round[i].Answered? && round[i].reply == peers(h, round[i].at) && !round[i].reply.Failed?
              && !(round[i].reply.Says? && round[i].reply.status.instantiated == cfg.instantiated)
  {
    PartAt(cfg, peers, start, round, i);
  }

  // ------------------------------------------------ the outcome is determined

  lemma SameReply(cfg: Config, peers: Peers, h: Bytes, from: nat, a: Heard, b: Heard)
    requires Genuine(cfg, peers, h, from, a) && Genuine(cfg, peers, h, from, b)
    ensures a == b
  {
  }

  /** Two accounts of a round agree as far as both go. */
  lemma {:induction false} SamePart(cfg: Config, peers: Peers, start: nat, a: Round, b: Round, i: nat)
    requires PartOf(cfg, peers, start, a) && PartOf(cfg, peers, start, b) && i <= |a| && i <= |b|
    ensures a[..i] == b[..i]
  {
    if i > 0 {
      SamePart(cfg, peers, start, a, b, i - 1);
      PartAt(cfg, peers, start, a, i - 1);
      PartAt(cfg, peers, start, b, i - 1);
      SameReply(cfg, peers, cfg.hosts[i - 1], PollsAfter(start, a[..i - 1]), a[i - 1], b[i - 1]);
      assert a[..i] == a[..i - 1] + [a[i - 1]] && b[..i] == b[..i - 1] + [b[i - 1]];
    }
  }

  lemma NotLonger(cfg: Config, peers: Peers, start: nat, a: Round, b: Round)
    requires RoundOf(cfg, peers, start, a) && RoundOf(cfg, peers, start, b)
    ensures |a| >= |b|
  {
    if |a| < |b| {
      SamePart(cfg, peers, start, a, b, |a|);
    }
  }

  lemma SameRound(cfg: Config, peers: Peers, start: nat, a: Round, b: Round)
    requires RoundOf(cfg, peers, start, a) && RoundOf(cfg, peers, start, b)
    ensures a == b
  {
    NotLonger(cfg, peers, start, a, b);
    NotLonger(cfg, peers, start, b, a);
    SamePart(cfg, peers, start, a, b, |a|);
    assert a[..|a|] == a && b[..|b|] == b;
  }

  ghost predicate HeardYounger(cfg: Config, peers: Peers, h: Bytes) {
    !Skips(cfg, h) && exists n: nat :: peers(h, n).Says? && peers(h, n).status.instantiated > cfg.instantiated
  }

  /** A node leaves as the oldest only if in one and the same round every host
      it lists was asked and gave a later time; so never if it lists itself or
      something that is no IPv4 address. */
  lemma OldestHeardAll(cfg: Config, peers: Peers, e: End, members: Members, join: bool)
    requires Explained(cfg, peers, e, members, join) && e.exit.Oldest?
    ensures forall h :: h in cfg.hosts ==> HeardYounger(cfg, peers, h)
  {
    var n := |e.rounds| - 1;
    var last := e.rounds[n];
    forall h | h in cfg.hosts ensures HeardYounger(cfg, peers, h) {
      var i :| 0 <= i < |cfg.hosts| && cfg.hosts[i] == h;
      assert Younger(cfg, last[i]);
      PartAt(cfg, peers, Polls(e.rounds[..n]), last, i);
      assert peers(h, last[i].at) == last[i].reply;
    }
  }

  /** Between turns of the loop: it has ended and can be explained, or it goes
      on. */
  ghost predicate AfterTurn(cfg: Config, peers: Peers, left: Option<Exit>, failed: nat, polls: nat, rounds: seq<Round>,
      cut: Round, members: Members, join: bool, waited: nat) {
    && polls <= failed + Answers(|rounds| + 1, |cfg.hosts|)
    && if left.Some? then Explained(cfg, peers, End(left.value, failed, polls, rounds, cut), members, join)
       else waited == failed + |rounds| && Going(cfg, peers, rounds, failed, polls, members)
  }

  /** What connect makes of a completed round; no exit means another round. */
  method Conclude(cfg: Config, peers: Peers, known: Members, waited: nat, failed: nat, polls: nat,
      ghost rounds: seq<Round>, t: Tally, readyToJoin: bool, ghost round: Round)
    returns (exit: Option<Exit>, join: bool, waited': nat, ghost rounds': seq<Round>)
    requires Going(cfg, peers, rounds, failed, polls, known) && waited == failed + |rounds|
    requires RoundOf(cfg, peers, polls, round) && Tallies(cfg, peers, polls, known, round, t)
    requires readyToJoin == Joined(round) && 0 <= t.missed < BOOTSTRAP_WAIT_S - waited
    requires t.polls <= polls + t.missed + |cfg.hosts|
    ensures rounds' == rounds + [round] && waited' == waited + t.missed + 1
    ensures AfterTurn(cfg, peers, exit, failed + t.missed, t.polls, rounds', [], t.members, join, waited')
  {
    RoundEnds(cfg, peers, rounds, failed, polls, known, round, t);
    waited', rounds', join := waited + t.missed + 1, rounds + [round], false;
    if t.bootstrap {
      exit := Some(Bootstrapping);
    } else if t.older == |cfg.hosts| {
      exit := Some(Oldest);
    } else if readyToJoin {
      exit, join := Some(Peering), true;
    } else if waited' >= BOOTSTRAP_WAIT_S {
      exit := Some(OutOfTime);
    } else {
      exit := None;
    }
    assert exit == Decision(cfg, t.bootstrap, t.older, readyToJoin, waited');
  }

  /** The first half of a turn: a round, unless the node gives up within it. */
  method PollOrGiveUp(cfg: Config, peers: Peers, known: Members, waited: nat, failed: nat, polls: nat,
      ghost rounds: seq<Round>)
    returns (exit: Option<Exit>, t: Tally, readyToJoin: bool, ghost round: Round)
    requires Going(cfg, peers, rounds, failed, polls, known) && waited == failed + |rounds|
    ensures 0 <= t.missed <= BOOTSTRAP_WAIT_S - waited && t.polls <= polls + t.missed + |cfg.hosts|
    ensures exit.Some? ==>
              AfterTurn(cfg, peers, exit, failed + t.missed, t.polls, rounds, round, t.members, false,
                waited + t.missed)
    ensures exit.None? ==>
              && RoundOf(cfg, peers, polls, round) && Tallies(cfg, peers, polls, known, round, t)
              && readyToJoin == Joined(round) && t.missed + waited < BOOTSTRAP_WAIT_S
  {
    var progress;
    progress, t, readyToJoin, round := Poll(cfg, peers, known, waited, polls);
    exit := None;
    if progress.GaveUp? {
      RoundBreaks(cfg, peers, rounds, failed, polls, known, round, progress.exit, t.missed, t.polls, t.members);
      exit := Some(progress.exit);
    }
  }

  /** One turn of connect's loop: a round, and what comes of it. */
  method Turn(cfg: Config, peers: Peers, known: Members, waited: nat, failed: nat, polls: nat, ghost rounds: seq<Round>)
    returns (exit: Option<Exit>, members: Members, join: bool, waited': nat, failed': nat, polls': nat,
        ghost rounds': seq<Round>, ghost cut: Round)
    requires Going(cfg, peers, rounds, failed, polls, known) && waited == failed + |rounds|
    ensures AfterTurn(cfg, peers, exit, failed', polls', rounds', cut, members, join, waited')
    ensures exit.None? ==> waited' > waited
  {
    var t, readyToJoin;
    exit, t, readyToJoin, cut := PollOrGiveUp(cfg, peers, known, waited, failed, polls, rounds);
    failed', polls', members := failed + t.missed, t.polls, t.members;
    if exit.Some? {
      join, waited', rounds' := false, waited + t.missed, rounds;
    } else {
      exit, join, waited', rounds' := Conclude(cfg, peers, known, waited, failed, polls, rounds, t, readyToJoin, cut);
      cut := [];
    }
  }

  /** connect up to the start of the replica. */
  method Connect(cfg: Config, peers: Peers)
    returns (exit: Exit, members: Members, join: bool, failed: nat, polls: nat,
        ghost rounds: seq<Round>, ghost cut: Round)
    ensures Explained(cfg, peers, End(exit, failed, polls, rounds, cut), members, join)
    ensures failed <= BOOTSTRAP_WAIT_S
    ensures exit.Peering? ==> join && members == map[]
    ensures exit.Bootstrapping? ==> !join && cfg.replica in members
    ensures exit.Oldest? ==> !join && forall h :: h in cfg.hosts ==> HeardYounger(cfg, peers, h)
    ensures Starts(exit) ==> rounds != [] && (!Joined(rounds[|rounds| - 1]) ==> MembersAre(cfg, rounds, members))
    ensures polls <= failed + Answers(|rounds| + 1, |cfg.hosts|)
  {
    members := map[cfg.replica := cfg.binding + KV_PORT];
    var waited, left := 0, None;
    failed, polls, rounds, cut, join := 0, 0, [], [], false;
    while left.None?
      invariant AfterTurn(cfg, peers, left, failed, polls, rounds, cut, members, join, waited)
      decreases left.None?, BOOTSTRAP_WAIT_S - waited
    {
      left, members, join, waited, failed, polls, rounds, cut :=
        Turn(cfg, peers, members, waited, failed, polls, rounds);
    }
    exit := left.value;
    Consequences(cfg, peers, End(exit, failed, polls, rounds, cut), members, join);
  }

  lemma Consequences(cfg: Config, peers: Peers, e: End, members: Members, join: bool)
    requires Explained(cfg, peers, e, members, join)
    ensures e.failed <= BOOTSTRAP_WAIT_S
    ensures e.exit.Peering? ==> join && members == map[]
    ensures e.exit.Bootstrapping? ==> !join && cfg.replica in members
    ensures e.exit.Oldest? ==> !join && forall h :: h in cfg.hosts ==> HeardYounger(cfg, peers, h)
    ensures Starts(e.exit) ==> e.rounds != []
    ensures Starts(e.exit) && !Joined(e.rounds[|e.rounds| - 1]) ==> MembersAre(cfg, e.rounds, members)
  {
    if Starts(e.exit) {
      if !Joined(e.rounds[|e.rounds| - 1]) { MembersAreWhatWasHeard(cfg, peers, e, members, join); }
      StartIsConsistentUnlessJoinedAsOldest(cfg, peers, e, members, join);
      if e.exit.Oldest? { OldestHeardAll(cfg, peers, e, members, join); }
    }
  }

  lemma {:induction false} MissesGrow(cfg: Config, peers: Peers, start: nat, round: Round, k: nat)
    requires PartOf(cfg, peers, start, round) && k <= |round|
    ensures 0 <= Misses(start, round[..k]) <= Misses(start, round)
    decreases |round|
  {
    var n := |round| - 1;
    if round == [] {
    } else if k == |round| {
      assert round[..k] == round;
      MissesGrow(cfg, peers, start, round[..n], n);
      assert round[..n][..n] == round[..n];
    } else {
      MissesGrow(cfg, peers, start, round[..n], k);
      assert round[..n][..k] == round[..k];
    }
  }

  /** A round that gets past the host at which a node gave up: only a node out
      of time gives up there, and the round misses at least as many polls. */
  lemma PastBreak(cfg: Config, peers: Peers, e: End, round: Round)
    requires Broke(cfg, peers, e) && PartOf(cfg, peers, Polls(e.rounds), round) && |e.cut| < |round|
    ensures e.exit.OutOfTime? && AllMisses(e.rounds) + Misses(Polls(e.rounds), round) >= e.failed
  {
    var start, k := Polls(e.rounds), |e.cut|;
    SamePart(cfg, peers, start, e.cut, round, k);
    assert e.cut[..k] == e.cut;
    PartAt(cfg, peers, start, round, k);
    MissesGrow(cfg, peers, start, round, k + 1);
    assert round[..k + 1][..k] == round[..k];
  }

  /** Where a node gave up there is no time for another complete round. */
  lemma NoRoundAfter(cfg: Config, peers: Peers, e: End, members: Members, join: bool, round: Round)
    requires Explained(cfg, peers, e, members, join) && !Starts(e.exit) && RoundOf(cfg, peers, Polls(e.rounds), round)
    ensures AllMisses(e.rounds) + Misses(Polls(e.rounds), round) + |e.rounds| + 1 > BOOTSTRAP_WAIT_S
  {
    var start := Polls(e.rounds);
    MissesGrow(cfg, peers, start, round, 0);
    assert round[..0] == [];
    if Broke(cfg, peers, e) {
      if |round| <= |e.cut| {
        SamePart(cfg, peers, start, e.cut, round, |round|);
      }
      PastBreak(cfg, peers, e, round);
    }
  }

  /** The complete rounds of an explanation, each from where the last one ended,
      all inconclusive but perhaps the last, within the budget. */
  ghost predicate Chain(cfg: Config, peers: Peers, rounds: seq<Round>) {
    rounds == [] ||
    var init, last := rounds[..|rounds| - 1], rounds[|rounds| - 1];
    Inconclusive(cfg, peers, init) && RoundOf(cfg, peers, Polls(init), last)
    && AllMisses(rounds) + |rounds| <= BOOTSTRAP_WAIT_S
  }

  lemma ChainOf(cfg: Config, peers: Peers, e: End, members: Members, join: bool)
    requires Explained(cfg, peers, e, members, join)
    ensures Chain(cfg, peers, e.rounds)
  {
    if Broke(cfg, peers, e) && e.rounds != [] {
      MissesGrow(cfg, peers, Polls(e.rounds), e.cut, 0);
      assert e.cut[..0] == [];
    }
  }

  lemma ChainShorter(cfg: Config, peers: Peers, rounds: seq<Round>)
    requires Chain(cfg, peers, rounds) && |rounds| > 1
    ensures var init := rounds[..|rounds| - 1]; Chain(cfg, peers, init) && Verdict(cfg, init[|init| - 1]).None?
  {
    var init, last := rounds[..|rounds| - 1], rounds[|rounds| - 1];
    MissesGrow(cfg, peers, Polls(init), last, 0);
    assert last[..0] == [];
  }

  lemma {:induction false} ChainPrefix(cfg: Config, peers: Peers, rounds: seq<Round>, r: nat)
    requires Chain(cfg, peers, rounds) && r < |rounds|
    ensures RoundOf(cfg, peers, Polls(rounds[..r]), rounds[r]) && (r < |rounds| - 1 ==> Verdict(cfg, rounds[r]).None?)
    ensures AllMisses(rounds[..r]) + Misses(Polls(rounds[..r]), rounds[r]) + r + 1 <= BOOTSTRAP_WAIT_S
    decreases |rounds|
  {
    var n := |rounds| - 1;
    if r < n {
      var init := rounds[..n];
      ChainShorter(cfg, peers, rounds);
      ChainPrefix(cfg, peers, init, r);
      assert init[..r] == rounds[..r] && init[r] == rounds[r];
    }
  }

  lemma SameNext(cfg: Config, peers: Peers, a: seq<Round>, b: seq<Round>, r: nat)
    requires Chain(cfg, peers, a) && Chain(cfg, peers, b) && r < |a| && r < |b| && a[..r] == b[..r]
    ensures a[r] == b[r]
  {
    ChainPrefix(cfg, peers, a, r);
    ChainPrefix(cfg, peers, b, r);
    SameRound(cfg, peers, Polls(a[..r]), a[r], b[r]);
  }

  /** Two accounts agree on all rounds both have. */
  lemma {:induction false} SameRounds(cfg: Config, peers: Peers, a: seq<Round>, b: seq<Round>, r: nat)
    requires Chain(cfg, peers, a) && Chain(cfg, peers, b) && r <= |a| && r <= |b|
    ensures a[..r] == b[..r]
  {
    if r > 0 {
      SameRounds(cfg, peers, a, b, r - 1);
      SameNext(cfg, peers, a, b, r - 1);
      assert a[..r] == a[..r - 1] + [a[r - 1]] && b[..r] == b[..r - 1] + [b[r - 1]];
    }
  }

  lemma NoMoreAfterStart(cfg: Config, peers: Peers, a: End, b: seq<Round>)
    requires Concluded(cfg, peers, a) && Chain(cfg, peers, a.rounds) && Chain(cfg, peers, b)
    ensures |b| <= |a.rounds|
  {
    var n := |a.rounds|;
    if |b| > n {
      SameNextLast(cfg, peers, a.rounds, b);
      ChainPrefix(cfg, peers, b, n - 1);
    }
  }

  lemma SameNextLast(cfg: Config, peers: Peers, a: seq<Round>, b: seq<Round>)
    requires Chain(cfg, peers, a) && Chain(cfg, peers, b) && 0 < |a| <= |b|
    ensures a[|a| - 1] == b[|a| - 1]
  {
    SameRounds(cfg, peers, a, b, |a| - 1);
    SameNext(cfg, peers, a, b, |a| - 1);
  }

  lemma NextInBudget(cfg: Config, peers: Peers, a: seq<Round>, b: seq<Round>)
    requires Chain(cfg, peers, b) && |a| < |b| && b[..|a|] == a
    ensures RoundOf(cfg, peers, Polls(a), b[|a|])
    ensures AllMisses(a) + Misses(Polls(a), b[|a|]) + |a| + 1 <= BOOTSTRAP_WAIT_S
  {
    ChainPrefix(cfg, peers, b, |a|);
  }

  lemma NoMoreAfterStop(cfg: Config, peers: Peers, a: End, members: Members, join: bool, b: seq<Round>)
    requires Explained(cfg, peers, a, members, join) && !Starts(a.exit)
    requires Chain(cfg, peers, a.rounds) && Chain(cfg, peers, b)
    ensures |b| <= |a.rounds|
  {
    var n := |a.rounds|;
    if |b| > n {
      SameRounds(cfg, peers, a.rounds, b, n);
      assert a.rounds[..n] == a.rounds;
      NextInBudget(cfg, peers, a.rounds, b);
      NoRoundAfter(cfg, peers, a, members, join, b[n]);
    }
  }

  /** An account does not go on where another one ends. */
  lemma NoMoreRounds(cfg: Config, peers: Peers, a: End, members: Members, join: bool, b: seq<Round>)
    requires Explained(cfg, peers, a, members, join) && Chain(cfg, peers, b)
    ensures Chain(cfg, peers, a.rounds) && |b| <= |a.rounds|
  {
    ChainOf(cfg, peers, a, members, join);
    if Starts(a.exit) {
      NoMoreAfterStart(cfg, peers, a, b);
    } else {
      NoMoreAfterStop(cfg, peers, a, members, join, b);
    }
  }

  /** Whether the node starts is told by the complete rounds. */
  lemma SameKind(cfg: Config, peers: Peers, a: End, membersA: Members, joinA: bool,
      b: End, membersB: Members, joinB: bool)
    requires Explained(cfg, peers, a, membersA, joinA) && Explained(cfg, peers, b, membersB, joinB)
    requires a.rounds == b.rounds && Starts(a.exit)
    ensures a == b && membersA == membersB && joinA == joinB
  {
  }

  lemma SameBreak(cfg: Config, peers: Peers, a: End, b: End)
    requires Broke(cfg, peers, a) && Broke(cfg, peers, b) && a.rounds == b.rounds
    ensures a == b
  {
    var start := Polls(a.rounds);
    if |a.cut| < |b.cut| { PastBreak(cfg, peers, a, b.cut); }
    if |b.cut| < |a.cut| { PastBreak(cfg, peers, b, a.cut); }
    SamePart(cfg, peers, start, a.cut, b.cut, if |a.cut| < |b.cut| then |a.cut| else |b.cut|);
    assert a.cut[..|a.cut|] == a.cut && b.cut[..|b.cut|] == b.cut;
  }

  lemma RanOutNotBroke(cfg: Config, peers: Peers, a: End, b: End)
    requires RanOut(cfg, peers, a) && a.rounds == b.rounds
    ensures !Broke(cfg, peers, b)
  {
    if Broke(cfg, peers, b) {
      assert b.cut[..0] == [];
      MissesGrow(cfg, peers, Polls(b.rounds), b.cut, 0);
    }
  }

  lemma SameStop(cfg: Config, peers: Peers, a: End, membersA: Members, joinA: bool,
      b: End, membersB: Members, joinB: bool)
    requires Explained(cfg, peers, a, membersA, joinA) && Explained(cfg, peers, b, membersB, joinB)
    requires !Starts(a.exit) && !Starts(b.exit) && a.rounds == b.rounds
    ensures a == b
  {
    if Broke(cfg, peers, a) && Broke(cfg, peers, b) {
      SameBreak(cfg, peers, a, b);
    } else if RanOut(cfg, peers, a) {
      RanOutNotBroke(cfg, peers, a, b);
    } else {
      RanOutNotBroke(cfg, peers, b, a);
    }
  }

  lemma EqualRounds(cfg: Config, peers: Peers, a: End, membersA: Members, joinA: bool,
      b: End, membersB: Members, joinB: bool)
    requires Explained(cfg, peers, a, membersA, joinA) && Explained(cfg, peers, b, membersB, joinB)
    ensures a.rounds == b.rounds
  {
    ChainOf(cfg, peers, a, membersA, joinA);
    ChainOf(cfg, peers, b, membersB, joinB);
    NoMoreRounds(cfg, peers, a, membersA, joinA, b.rounds);
    NoMoreRounds(cfg, peers, b, membersB, joinB, a.rounds);
    var n := |a.rounds|;
    SameRounds(cfg, peers, a.rounds, b.rounds, n);
    assert a.rounds[..n] == a.rounds && b.rounds[..n] == b.rounds;
  }

  /** Main theorem: the peers' replies alone determine how connect ends, after
      which polls, and what the replica starts with. */
  lemma Determined(cfg: Config, peers: Peers, a: End, membersA: Members, joinA: bool,
      b: End, membersB: Members, joinB: bool)
    requires Explained(cfg, peers, a, membersA, joinA) && Explained(cfg, peers, b, membersB, joinB)
    ensures a == b && (Starts(a.exit) ==> membersA == membersB && joinA == joinB)
  {
    EqualRounds(cfg, peers, a, membersA, joinA, b, membersB, joinB);
    if Starts(a.exit) {
      SameKind(cfg, peers, a, membersA, joinA, b, membersB, joinB);
    } else if Starts(b.exit) {
      SameKind(cfg, peers, b, membersB, joinB, a, membersA, joinA);
    } else {
      SameStop(cfg, peers, a, membersA, joinA, b, membersB, joinB);
    }
  }

  lemma FirstRound(cfg: Config, peers: Peers, rounds: seq<Round>)
    requires Inconclusive(cfg, peers, rounds) && rounds != []
    ensures RoundOf(cfg, peers, 0, rounds[0]) && Verdict(cfg, rounds[0]).None?
  {
    if |rounds| > 1 {
      FirstRound(cfg, peers, rounds[..|rounds| - 1]);
    } else {
      assert rounds[..0] == [];
    }
  }

  /** A first round over one younger host that has started, knows a cluster and
      lets the node join. */
  lemma JoinedRound(cfg: Config, peers: Peers, h: Bytes, status: Status) returns (round: Round)
    requires cfg.hosts == [h] && !Skips(cfg, h) && peers(h, 0) == Says(status, true, true)
    requires status.started > 0 && status.instantiated > cfg.instantiated
    ensures RoundOf(cfg, peers, 0, round) && Verdict(cfg, round) == Some(Oldest) && Joined(round)
    ensures LearnAll(Known(cfg, []), round) == map[]
    ensures PollsAfter(0, round) == 1 && Misses(0, round) == 0
  {
    round := [Answered(0, peers(h, 0))];
    assert round[..0] == [] && PollsAfter(0, round[..0]) == 0;
    assert Genuine(cfg, peers, h, 0, round[0]);
    assert PartOf(cfg, peers, 0, round);
  }

  /** With such a host the inconsistent start happens: whatever it and others
      reply later, connect leaves as OLDEST after that poll, with no members
      and without joining, and in no other way. */
  lemma OldestJoins(cfg: Config, peers: Peers, h: Bytes, status: Status, e: End, members: Members, join: bool)
    requires cfg.hosts == [h] && !Skips(cfg, h) && peers(h, 0) == Says(status, true, true)
    requires status.started > 0 && status.instantiated > cfg.instantiated
    requires Explained(cfg, peers, e, members, join)
    ensures e.exit == Oldest && e.failed == 0 && e.polls == 1 && members == map[] && !join
  {
    var round := JoinedRound(cfg, peers, h, status);
    if Starts(e.exit) {
      var n := |e.rounds| - 1;
      if n > 0 {
        FirstRound(cfg, peers, e.rounds[..n]);
        SameRound(cfg, peers, 0, round, e.rounds[0]);
      } else {
        assert e.rounds[..0] == [] && e.rounds == [] + [e.rounds[0]];
        SameRound(cfg, peers, 0, round, e.rounds[0]);
        RoundsSnoc(cfg, [], round);
      }
    } else if e.rounds != [] {
      FirstRound(cfg, peers, e.rounds);
      SameRound(cfg, peers, 0, round, e.rounds[0]);
    } else {
      FirstHost(cfg, peers, h, e);
    }
  }

  /** Nobody gives up on a lone host that replies at once with another time. */
  lemma FirstHost(cfg: Config, peers: Peers, h: Bytes, e: End)
    requires cfg.hosts == [h] && peers(h, 0).Says? && !SameInstant(cfg, peers(h, 0))
    ensures !(e.rounds == [] && (Broke(cfg, peers, e) || RanOut(cfg, peers, e)))
  {
  }

  /** Hosts tell the time of the node that runs there, or 0 before it is set. */
  ghost predicate Truthful(peers: Peers, times: Bytes -> int) {
    forall h, n: nat :: peers(h, n).Says? ==>
      peers(h, n).status.instantiated == times(h) || peers(h, n).status.instantiated == 0
  }

  /** Of two nodes that list each other at most one leaves as the oldest. */
  lemma AtMostOneOldest(times: Bytes -> int,
    a: Config, peersA: Peers, endA: End, membersA: Members, joinA: bool,
    b: Config, peersB: Peers, endB: End, membersB: Members, joinB: bool)
    requires Explained(a, peersA, endA, membersA, joinA) && Explained(b, peersB, endB, membersB, joinB)
    requires Truthful(peersA, times) && Truthful(peersB, times)
    requires a.instantiated == times(a.binding) > 0 && b.instantiated == times(b.binding) > 0
    requires b.binding in a.hosts && a.binding in b.hosts
    ensures !(endA.exit.Oldest? && endB.exit.Oldest?)
  {
    if endA.exit.Oldest? {
      OldestHeardAll(a, peersA, endA, membersA, joinA);
      assert HeardYounger(a, peersA, b.binding);
    }
    if endB.exit.Oldest? {
      OldestHeardAll(b, peersB, endB, membersB, joinB);
      assert HeardYounger(b, peersB, a.binding);
    }
  }
}
