/** enet_host_bandwidth_throttle: how a host shares its bandwidth among its peers. */
module Bandwidth {
  import opened Arithmetic
  import opened Wrappers

  const WORD := 0x1_0000_0000
  const THROTTLE_SCALE := 32

  /** active: CONNECTED or DISCONNECT_LATER. */
  datatype Peer = Peer(active: bool, incomingBandwidth: nat, outgoingBandwidth: nat,
                       incomingEpoch: nat, outgoingEpoch: nat, incomingDataTotal: nat, outgoingDataTotal: nat,
                       packetThrottle: nat, packetThrottleLimit: nat)

  function Sum(ps: seq<Peer>, f: Peer -> nat): nat {
    if ps == [] then 0 else f(ps[0]) + Sum(ps[1..], f)
  }

  lemma {:induction false} SumAt(ps: seq<Peer>, f: Peer -> nat, i: nat, p: Peer)
    requires i < |ps|
    ensures Sum(ps[i := p], f) + f(ps[i]) == Sum(ps, f) + f(p) && f(ps[i]) <= Sum(ps, f)
  {
    if i == 0 {
      assert ps[0 := p][1..] == ps[1..];
    } else {
      SumAt(ps[1..], f, i - 1, p);
      assert ps[i := p][1..] == ps[1..][i - 1 := p];
    }
  }

  // The limits a host asks its peers to keep: what it is willing to receive.

  predicate Unsettled(p: Peer, now: nat) { p.active && p.incomingEpoch != now }

  function OneUnsettled(now: nat): Peer -> nat { (p: Peer) => if Unsettled(p, now) then 1 else 0 }

  /** What the settled peers send at most. */
  function SettledShare(now: nat): Peer -> nat { (p: Peer) => if p.active && p.incomingEpoch == now then p.outgoingBandwidth else 0 }

  /** The limit sent to a peer; 0 for one that has none of its own. */
  function Limit(p: Peer, now: nat, level: nat): nat { if p.incomingEpoch == now then p.outgoingBandwidth else level }

  /** Peers without a limit of their own are not counted. */
  function Share(now: nat, level: nat): Peer -> nat {
    (p: Peer) => if p.active && p.outgoingBandwidth > 0 then Limit(p, now, level) else 0
  }

  /** At this level the peer is not limited: it sends no more anyway, or has not said how much it sends. */
  predicate Below(p: Peer, level: nat) { p.active && (p.outgoingBandwidth == 0 || p.outgoingBandwidth < level) }

  function OneAbove(level: nat): Peer -> nat { (p: Peer) => if p.active && !Below(p, level) then 1 else 0 }

  function ClaimedBelow(level: nat): Peer -> nat { (p: Peer) => if Below(p, level) then p.outgoingBandwidth else 0 }

  function Marked(p: Peer, now: nat, level: nat): Peer { if Below(p, level) then p.(incomingEpoch := now) else p }

  /** The incoming loop marks the peers below the level, and changes nothing else. */
  ghost predicate AllMarked(ps: seq<Peer>, qs: seq<Peer>, now: nat, level: nat) {
    |ps| == |qs| && forall i :: 0 <= i < |ps| ==> qs[i] == Marked(ps[i], now, level)
  }

  /** One pass over the peers with a fixed level. */
  method SettlePeers(peers: array<Peer>, now: nat, level: nat, remaining: nat, bandwidth: nat)
    returns (adjusted: bool, remaining': nat, bandwidth': nat)
    requires remaining == Sum(peers[..], OneUnsettled(now)) && remaining * level <= bandwidth
    modifies peers
    ensures AllMarked(old(peers[..]), peers[..], now, level)
    ensures remaining' == Sum(peers[..], OneUnsettled(now)) && remaining' * level <= bandwidth'
    ensures bandwidth' + Sum(peers[..], SettledShare(now)) == bandwidth + Sum(old(peers[..]), SettledShare(now))
    ensures adjusted ==> remaining' < remaining
    ensures !adjusted ==> peers[..] == old(peers[..]) && remaining' == remaining && bandwidth' == bandwidth
  {
    adjusted, remaining', bandwidth' := false, remaining, bandwidth;
    var i := 0;
    while i < peers.Length
      invariant i <= peers.Length
      invariant forall j :: 0 <= j < i ==> peers[j] == Marked(old(peers[j]), now, level)
      invariant forall j :: i <= j < peers.Length ==> peers[j] == old(peers[j])
      invariant remaining' == Sum(peers[..], OneUnsettled(now)) && remaining' * level <= bandwidth'
      invariant bandwidth' + Sum(peers[..], SettledShare(now)) == bandwidth + Sum(old(peers[..]), SettledShare(now))
      invariant adjusted ==> remaining' < remaining
      invariant !adjusted ==> peers[..] == old(peers[..]) && remaining' == remaining && bandwidth' == bandwidth
    {
      var peer := peers[i];
      if Unsettled(peer, now) && !(peer.outgoingBandwidth > 0 && peer.outgoingBandwidth >= level) {
        ghost var before := peers[..];
        Settle(before, now, i, level, remaining', bandwidth');
        peers[i] := peer.(incomingEpoch := now);
        assert peers[..] == before[i := peer.(incomingEpoch := now)];
        adjusted := true;
        remaining' := remaining' - 1;
        bandwidth' := bandwidth' - peer.outgoingBandwidth;
      }
      i := i + 1;
    }
  }

  /** Settling a peer below the level leaves at least the level for each of the others. */
  lemma Settle(ps: seq<Peer>, now: nat, i: nat, level: nat, remaining: nat, bandwidth: nat)
    requires i < |ps| && Unsettled(ps[i], now) && (ps[i].outgoingBandwidth == 0 || ps[i].outgoingBandwidth < level)
    requires remaining == Sum(ps, OneUnsettled(now)) && remaining * level <= bandwidth
    ensures var qs := ps[i := ps[i].(incomingEpoch := now)];
      && remaining > 0 && bandwidth >= ps[i].outgoingBandwidth
      && remaining - 1 == Sum(qs, OneUnsettled(now)) && (remaining - 1) * level <= bandwidth - ps[i].outgoingBandwidth
      && Sum(qs, SettledShare(now)) == Sum(ps, SettledShare(now)) + ps[i].outgoingBandwidth
  {
    SumAt(ps, OneUnsettled(now), i, ps[i].(incomingEpoch := now));
    SumAt(ps, SettledShare(now), i, ps[i].(incomingEpoch := now));
    assert remaining * level == (remaining - 1) * level + level;
    assert (remaining - 1) * level >= 0;
  }

  /** What the limits promise when they are all given out. */
  ghost predicate Shares(ps: seq<Peer>, now: nat, total: nat, level: nat) {
    // Together the limits stay within the host's bandwidth,
    && Sum(ps, Share(now, level)) <= total
    // a peer gets what it sends at most, or the level if that is less,
    && (forall p :: p in ps && p.active && p.outgoingBandwidth > 0 ==> Limit(p, now, level) == Min(p.outgoingBandwidth, level))
    // and what is left is not enough to raise the level by one.
    && (Sum(ps, OneUnsettled(now)) > 0 ==> total < Sum(ps, Share(now, level)) + Sum(ps, OneUnsettled(now)))
  }

  lemma {:induction false} SharesAddUp(ps: seq<Peer>, now: nat, level: nat)
    requires forall p :: p in ps && Unsettled(p, now) ==> p.outgoingBandwidth > 0
    ensures Sum(ps, Share(now, level)) == Sum(ps, SettledShare(now)) + level * Sum(ps, OneUnsettled(now))
  {
    if ps != [] {
      assert ps[0] in ps && forall p :: p in ps[1..] ==> p in ps;
      SharesAddUp(ps[1..], now, level);
      assert level * (1 + Sum(ps[1..], OneUnsettled(now))) == level + level * Sum(ps[1..], OneUnsettled(now));
    }
  }

  lemma LevelRises(remaining: nat, level: nat, bandwidth: nat)
    requires remaining > 0 && remaining * level <= bandwidth
    ensures level <= bandwidth / remaining && remaining * (bandwidth / remaining) <= bandwidth < remaining * (bandwidth / remaining) + remaining
  {
    var q := bandwidth / remaining;
    assert bandwidth == q * remaining + bandwidth % remaining;
    assert q < level ==> remaining * (q + 1) <= remaining * level;
  }

  // Where the passes end.

  /** Dividing what the peers below a level leave among those above it gives the same level again. */
  ghost predicate Stable(ps: seq<Peer>, total: nat, level: nat) {
    var n, claimed := Sum(ps, OneAbove(level)), Sum(ps, ClaimedBelow(level));
    n > 0 && claimed <= total && level == (total - claimed) / n
  }

  /** The passes leave the peers below the least stable level marked; where no level is stable, all of them. */
  ghost predicate Outcome(ps: seq<Peer>, now: nat, total: nat, level: nat, qs: seq<Peer>) {
    && AllMarked(ps, qs, now, level)
    && (forall l :: Stable(ps, total, l) ==> level <= l)
    && (Stable(ps, total, level) || (Sum(ps, OneAbove(level)) == 0 && Sum(ps, ClaimedBelow(level)) <= total))
  }

  ghost predicate NoneMarked(ps: seq<Peer>, now: nat) { forall i :: 0 <= i < |ps| && ps[i].active ==> ps[i].incomingEpoch != now }

  /** The loops that find the level; connected is the host's count of its active peers, none of them settled at this time. */
  method ShareIncoming(peers: array<Peer>, now: nat, incomingBandwidth: nat, connected: nat) returns (level: nat)
    requires NoneMarked(peers[..], now) && connected == Sum(peers[..], OneUnsettled(now))
    modifies peers
    ensures incomingBandwidth == 0 ==> level == 0 && peers[..] == old(peers[..])
    ensures incomingBandwidth > 0 ==> Outcome(old(peers[..]), now, incomingBandwidth, level, peers[..])
    ensures incomingBandwidth > 0 ==> Shares(peers[..], now, incomingBandwidth, level)
  {
    level := 0;
    if incomingBandwidth == 0 { return; }
    var remaining, bandwidth, needsAdjustment := connected, incomingBandwidth, true;
    ghost var start, begun := peers[..], false;
    NothingSettled(start, now);
    while remaining > 0 && needsAdjustment
      invariant if begun then AllMarked(start, peers[..], now, level) else peers[..] == start && level == 0 && needsAdjustment
      invariant remaining == Sum(peers[..], OneUnsettled(now)) && remaining * level <= bandwidth
      invariant bandwidth + Sum(peers[..], SettledShare(now)) == incomingBandwidth
      invariant !needsAdjustment ==> bandwidth < remaining * level + remaining
      invariant forall l :: Stable(start, incomingBandwidth, l) ==> level <= l
      decreases remaining, needsAdjustment
    {
      forall l | Stable(start, incomingBandwidth, l) ensures bandwidth / remaining <= l {
        StableIsAbove(start, peers[..], now, incomingBandwidth, l, remaining, bandwidth);
      }
      LevelRises(remaining, level, bandwidth);
      level := bandwidth / remaining;
      needsAdjustment, remaining, bandwidth := SettlePeers(peers, now, level, remaining, bandwidth);
      begun := true;
    }
    if !begun { NobodyActive(start, now, level); }
    MarkedSums(start, peers[..], now, level);
    if remaining > 0 { LevelIsQuotient(remaining, level, bandwidth); }
    OutcomeShares(start, now, incomingBandwidth, level, peers[..]);
  }

  /** The loop that sends every active peer its limit. */
  method SendLimits(peers: array<Peer>, now: nat, level: nat) returns (limits: seq<Option<nat>>)
    ensures |limits| == peers.Length
    ensures forall i :: 0 <= i < peers.Length ==> limits[i] == if peers[i].active then Some(Limit(peers[i], now, level)) else None
  {
    limits := [];
    var i := 0;
    while i < peers.Length
      invariant i <= peers.Length && |limits| == i
      invariant forall j :: 0 <= j < i ==> limits[j] == if peers[j].active then Some(Limit(peers[j], now, level)) else None
    {
      var limit := None;
      if peers[i].active {
        limit := Some(if peers[i].incomingEpoch == now then peers[i].outgoingBandwidth else level);
      }
      limits := limits + [limit];
      i := i + 1;
    }
  }

  /** The whole incoming half: a peer is told its own limit, or the level if that is less; one that has none is told none, and
      without a bandwidth of the host's nobody has any. */
  method LimitIncoming(peers: array<Peer>, now: nat, incomingBandwidth: nat, connected: nat) returns (level: nat, limits: seq<Option<nat>>)
    requires NoneMarked(peers[..], now) && connected == Sum(peers[..], OneUnsettled(now))
    modifies peers
    ensures incomingBandwidth > 0 ==> Outcome(old(peers[..]), now, incomingBandwidth, level, peers[..])
    ensures |limits| == peers.Length
    ensures forall i :: 0 <= i < peers.Length ==>
      var p := old(peers[i]);
      limits[i] == if !p.active then None
                   else if incomingBandwidth == 0 || p.outgoingBandwidth == 0 then Some(0)
                   else if p.outgoingBandwidth < level then Some(p.outgoingBandwidth) else Some(level)
  {
    hide Shares, Stable, Sum;
    level := ShareIncoming(peers, now, incomingBandwidth, connected);
    limits := SendLimits(peers, now, level);
  }

  lemma LevelIsQuotient(remaining: nat, level: nat, bandwidth: nat)
    requires remaining * level <= bandwidth < remaining * level + remaining
    ensures level == bandwidth / remaining
  {
    ModIs(bandwidth, remaining, level, bandwidth - remaining * level);
  }

  lemma {:induction false} NothingSettled(ps: seq<Peer>, now: nat)
    requires NoneMarked(ps, now)
    ensures Sum(ps, SettledShare(now)) == 0
  {
    if ps != [] { NothingSettled(ps[1..], now); }
  }

  lemma {:induction false} NoneLeft(ps: seq<Peer>, now: nat)
    requires Sum(ps, OneUnsettled(now)) == 0
    ensures forall p :: p in ps ==> !Unsettled(p, now)
  {
    if ps != [] { NoneLeft(ps[1..], now); }
  }

  lemma NobodyActive(ps: seq<Peer>, now: nat, level: nat)
    requires NoneMarked(ps, now) && Sum(ps, OneUnsettled(now)) == 0
    ensures AllMarked(ps, ps, now, level)
  {
    NoneLeft(ps, now);
    forall i | 0 <= i < |ps| ensures ps[i] == Marked(ps[i], now, level) { assert ps[i] in ps; }
  }

  lemma {:induction false} MarkedSums(ps: seq<Peer>, qs: seq<Peer>, now: nat, level: nat)
    requires NoneMarked(ps, now) && AllMarked(ps, qs, now, level)
    ensures Sum(qs, OneUnsettled(now)) == Sum(ps, OneAbove(level))
    ensures Sum(qs, SettledShare(now)) == Sum(ps, ClaimedBelow(level))
  {
    if ps != [] { MarkedSums(ps[1..], qs[1..], now, level); }
  }

  /** Some of the peers below a level have been settled, and no others. */
  ghost predicate SettledBelow(ps: seq<Peer>, qs: seq<Peer>, now: nat, level: nat) {
    && |ps| == |qs|
    && forall i :: 0 <= i < |ps| ==> qs[i] == ps[i] || (Below(ps[i], level) && qs[i] == ps[i].(incomingEpoch := now))
  }

  /** The peers that a stable level would settle and the passes have not settled take no more than that level each. */
  lemma {:induction false} StillToSettle(ps: seq<Peer>, qs: seq<Peer>, now: nat, level: nat)
    requires NoneMarked(ps, now) && SettledBelow(ps, qs, now, level)
    ensures Sum(ps, OneAbove(level)) <= Sum(qs, OneUnsettled(now))
    ensures Sum(ps, ClaimedBelow(level))
      <= Sum(qs, SettledShare(now)) + (Sum(qs, OneUnsettled(now)) - Sum(ps, OneAbove(level))) * level
  {
    if ps != [] {
      StillToSettle(ps[1..], qs[1..], now, level);
      var more := Sum(qs[1..], OneUnsettled(now)) - Sum(ps[1..], OneAbove(level));
      assert (more + 1) * level == more * level + level;
    }
  }

  /** No pass goes beyond a stable level. */
  lemma StableIsAbove(ps: seq<Peer>, qs: seq<Peer>, now: nat, total: nat, level: nat, remaining: nat, bandwidth: nat)
    requires NoneMarked(ps, now) && SettledBelow(ps, qs, now, level) && Stable(ps, total, level)
    requires remaining == Sum(qs, OneUnsettled(now)) > 0 && bandwidth + Sum(qs, SettledShare(now)) == total
    ensures bandwidth / remaining <= level
  {
    StillToSettle(ps, qs, now, level);
    QuotientAtMost(Sum(ps, OneAbove(level)), Sum(ps, ClaimedBelow(level)), total, level, remaining, bandwidth);
  }

  lemma QuotientAtMost(n: nat, claimed: nat, total: nat, level: nat, remaining: nat, bandwidth: nat)
    requires 0 < n <= remaining && bandwidth <= total && claimed <= total && level == (total - claimed) / n
    requires claimed <= total - bandwidth + (remaining - n) * level
    ensures bandwidth / remaining <= level
  {
    DividedUp(n, total - claimed, level);
    Difference(remaining, n, level);
    DivAtMost(bandwidth, remaining, level);
  }

  lemma DividedUp(n: nat, rest: nat, level: nat)
    requires n > 0 && level == rest / n
    ensures level * n <= rest < level * n + n
  {
    assert rest == level * n + rest % n;
  }

  lemma OutcomeShares(ps: seq<Peer>, now: nat, total: nat, level: nat, qs: seq<Peer>)
    requires NoneMarked(ps, now) && Outcome(ps, now, total, level, qs)
    ensures Shares(qs, now, total, level)
    ensures Sum(qs, Share(now, level)) == Sum(ps, ClaimedBelow(level)) + level * Sum(ps, OneAbove(level))
  {
    MarkedSums(ps, qs, now, level);
    MarkedIsBelow(ps, qs, now, level);
    var n, claimed := Sum(ps, OneAbove(level)), Sum(ps, ClaimedBelow(level));
    assert n > 0 ==> level == (total - claimed) / n;
    hide Sum, Stable, Outcome;
    SharesAddUp(qs, now, level);
    if n > 0 { DividedUp(n, total - claimed, level); }
  }

  lemma MarkedIsBelow(ps: seq<Peer>, qs: seq<Peer>, now: nat, level: nat)
    requires NoneMarked(ps, now) && AllMarked(ps, qs, now, level)
    ensures forall q :: q in qs && q.active ==> (q.incomingEpoch == now <==> Below(q, level))
  {
    forall q | q in qs && q.active ensures q.incomingEpoch == now <==> Below(q, level) {
      var i :| 0 <= i < |qs| && qs[i] == q;
      assert q == Marked(ps[i], now, level);
    }
  }

  lemma {:induction false} FewerAbove(ps: seq<Peer>, low: nat, high: nat)
    requires low <= high
    ensures Sum(ps, OneAbove(high)) <= Sum(ps, OneAbove(low))
    ensures Sum(ps, OneAbove(low)) == 0 ==> forall p :: p in ps && p.active ==> Below(p, low)
  {
    if ps != [] { FewerAbove(ps[1..], low, high); }
  }

  /** Peers and bandwidth leave no choice: the same peers are settled, and the others are sent the same level. */
  lemma OneOutcome(ps: seq<Peer>, now: nat, total: nat, level: nat, qs: seq<Peer>, level': nat, qs': seq<Peer>)
    requires Outcome(ps, now, total, level, qs) && Outcome(ps, now, total, level', qs')
    ensures qs == qs' && forall i :: 0 <= i < |qs| && Unsettled(qs[i], now) ==> level == level'
  {
    if Stable(ps, total, level) && Stable(ps, total, level') {
    } else if Stable(ps, total, level) {
      FewerAbove(ps, level', level);
    } else if Stable(ps, total, level') {
      FewerAbove(ps, level, level');
    } else {
      FewerAbove(ps, level, level);
      FewerAbove(ps, level', level');
      forall i | 0 <= i < |ps| ensures qs[i] == qs'[i] && !Unsettled(qs[i], now) {
        assert ps[i] in ps;
      }
    }
  }

  // How fair that is.

  function Total(s: seq<nat>): nat { if s == [] then 0 else s[0] + Total(s[1..]) }

  /** A way to share: nobody gets more than it sends, and together they keep to the host's bandwidth. */
  ghost predicate Feasible(ps: seq<Peer>, s: seq<nat>, total: nat) {
    && |s| == |ps| && Total(s) <= total
    && forall i :: 0 <= i < |ps| ==> s[i] <= if ps[i].active then ps[i].outgoingBandwidth else 0
  }

  /** Nobody can get more unless somebody who has no more than that gets less. */
  ghost predicate MaxMinFair(ps: seq<Peer>, s: seq<nat>, total: nat) {
    && Feasible(ps, s, total)
    && forall t: seq<nat>, j :: Feasible(ps, t, total) && 0 <= j < |ps| && t[j] > s[j] ==>
         exists i :: 0 <= i < |ps| && s[i] <= s[j] && t[i] < s[i]
  }

  function Shared(ps: seq<Peer>, now: nat, level: nat): seq<nat> {
    if ps == [] then [] else [Share(now, level)(ps[0])] + Shared(ps[1..], now, level)
  }

  lemma {:induction false} SharedAt(ps: seq<Peer>, now: nat, level: nat)
    ensures |Shared(ps, now, level)| == |ps| && Total(Shared(ps, now, level)) == Sum(ps, Share(now, level))
    ensures forall i :: 0 <= i < |ps| ==> Shared(ps, now, level)[i] == Share(now, level)(ps[i])
  {
    if ps != [] { SharedAt(ps[1..], now, level); }
  }

  lemma {:induction false} TotalGrows(s: seq<nat>, t: seq<nat>, j: nat)
    requires |s| == |t| && j < |s| && t[j] > s[j] && forall i :: 0 <= i < |s| ==> s[i] <= t[i]
    ensures Total(s) < Total(t)
  {
    if j > 0 {
      TotalGrows(s[1..], t[1..], j - 1);
    } else {
      TotalAtLeast(s[1..], t[1..]);
    }
  }

  lemma {:induction false} TotalAtLeast(s: seq<nat>, t: seq<nat>)
    requires |s| == |t| && forall i :: 0 <= i < |s| ==> s[i] <= t[i]
    ensures Total(s) <= Total(t)
  {
    if s != [] { TotalAtLeast(s[1..], t[1..]); }
  }

  lemma {:induction false} TotalUpdate(s: seq<nat>, j: nat)
    requires j < |s|
    ensures Total(s[j := s[j] + 1]) == Total(s) + 1
  {
    if j > 0 {
      TotalUpdate(s[1..], j - 1);
      assert s[j := s[j] + 1][1..] == s[1..][j - 1 := s[j] + 1];
    } else {
      assert s[0 := s[0] + 1][1..] == s[1..];
    }
  }

  lemma SharedIs(ps: seq<Peer>, now: nat, total: nat, level: nat, i: nat)
    requires Shares(ps, now, total, level) && i < |ps|
    ensures |Shared(ps, now, level)| == |ps|
    ensures Shared(ps, now, level)[i] == if ps[i].active then Min(ps[i].outgoingBandwidth, level) else 0
  {
    SharedAt(ps, now, level);
    assert ps[i] in ps;
  }

  lemma SharedFeasible(ps: seq<Peer>, now: nat, total: nat, level: nat)
    requires Shares(ps, now, total, level)
    ensures Feasible(ps, Shared(ps, now, level), total) && |Shared(ps, now, level)| == |ps|
  {
    SharedAt(ps, now, level);
    forall i | 0 <= i < |ps| ensures Shared(ps, now, level)[i] <= if ps[i].active then ps[i].outgoingBandwidth else 0 {
      SharedIs(ps, now, total, level, i);
    }
  }

  /** Where somebody gets more of a bandwidth that has all been given out, somebody else gets less. */
  lemma MoreTakesFromOthers(ps: seq<Peer>, now: nat, total: nat, level: nat, t: seq<nat>, j: nat)
    requires Shares(ps, now, total, level) && Sum(ps, Share(now, level)) == total
    requires Feasible(ps, t, total) && j < |ps| == |Shared(ps, now, level)| && t[j] > Shared(ps, now, level)[j]
    ensures var s := Shared(ps, now, level); exists i :: 0 <= i < |ps| && s[i] <= s[j] && t[i] < s[i]
  {
    var s := Shared(ps, now, level);
    SharedAt(ps, now, level);
    SharedIs(ps, now, total, level, j);
    if forall i :: 0 <= i < |ps| ==> s[i] <= t[i] {
      TotalGrows(s, t, j);
    } else {
      var i :| 0 <= i < |ps| && t[i] < s[i];
      SharedIs(ps, now, total, level, i);
    }
  }

  /** What is left over could go to anybody who would take more. */
  lemma LeftOver(ps: seq<Peer>, now: nat, total: nat, level: nat, j: nat)
    requires Shares(ps, now, total, level) && Sum(ps, Share(now, level)) < total
    requires j < |ps| && ps[j].active && ps[j].outgoingBandwidth > level
    ensures !MaxMinFair(ps, Shared(ps, now, level), total)
  {
    var s := Shared(ps, now, level);
    SharedAt(ps, now, level);
    SharedFeasible(ps, now, total, level);
    SharedIs(ps, now, total, level, j);
    TotalUpdate(s, j);
    hide Shares, Sum;
    var t := s[j := s[j] + 1];
    assert Feasible(ps, t, total) && t[j] > s[j] && forall i :: 0 <= i < |ps| ==> t[i] >= s[i];
  }

  lemma FairWhenGivenOut(ps: seq<Peer>, now: nat, total: nat, level: nat)
    requires Shares(ps, now, total, level) && Sum(ps, Share(now, level)) == total
    ensures MaxMinFair(ps, Shared(ps, now, level), total)
  {
    var s := Shared(ps, now, level);
    assert forall t: seq<nat> :: Feasible(ps, t, total) ==> |t| == |ps|;
    hide Feasible, Sum, Shares, Shared, Share;
    SharedFeasible(ps, now, total, level);
    forall t: seq<nat>, j | Feasible(ps, t, total) && 0 <= j < |ps| && t[j] > s[j]
      ensures exists i :: 0 <= i < |ps| && s[i] <= s[j] && t[i] < s[i]
    {
      MoreTakesFromOthers(ps, now, total, level, t, j);
    }
  }

  lemma FairWhenContent(ps: seq<Peer>, now: nat, total: nat, level: nat)
    requires Shares(ps, now, total, level) && forall p :: p in ps && p.active ==> p.outgoingBandwidth <= level
    ensures MaxMinFair(ps, Shared(ps, now, level), total)
  {
    var s := Shared(ps, now, level);
    SharedFeasible(ps, now, total, level);
    SharedAt(ps, now, level);
    hide Feasible, Sum, Shares, Shared;
    forall t: seq<nat>, j | Feasible(ps, t, total) && 0 <= j < |ps| ensures t[j] <= s[j] {
      Content(ps, now, total, level, t, j);
    }
  }

  lemma FairShares(ps: seq<Peer>, now: nat, total: nat, level: nat)
    requires Shares(ps, now, total, level)
    ensures MaxMinFair(ps, Shared(ps, now, level), total) <==>
      Sum(ps, Share(now, level)) == total || forall p :: p in ps && p.active ==> p.outgoingBandwidth <= level
  {
    NoMoreThanAll(ps, now, total, level);
    hide MaxMinFair, Sum, Shares, Shared;
    if Sum(ps, Share(now, level)) == total {
      FairWhenGivenOut(ps, now, total, level);
    } else if p :| p in ps && p.active && p.outgoingBandwidth > level {
      var j :| 0 <= j < |ps| && ps[j] == p;
      LeftOver(ps, now, total, level, j);
    } else {
      FairWhenContent(ps, now, total, level);
    }
  }

  /** The limits the passes end with are max-min fair exactly when the last division left nothing over, or nobody would
      take more. */
  lemma FairExactly(ps: seq<Peer>, now: nat, total: nat, level: nat, qs: seq<Peer>)
    requires NoneMarked(ps, now) && Outcome(ps, now, total, level, qs)
    ensures MaxMinFair(qs, Shared(qs, now, level), total) <==>
      || Sum(ps, ClaimedBelow(level)) + level * Sum(ps, OneAbove(level)) == total
      || forall p :: p in ps && p.active ==> p.outgoingBandwidth <= level
  {
    OutcomeShares(ps, now, total, level, qs);
    FairShares(qs, now, total, level);
    hide MaxMinFair, Sum, Shares, Shared, Stable;
    forall p | p in ps ensures Marked(p, now, level) in qs {
      var i :| 0 <= i < |ps| && ps[i] == p;
      assert qs[i] in qs;
    }
    forall q | q in qs ensures exists p :: p in ps && q == Marked(p, now, level) {
      var i :| 0 <= i < |qs| && qs[i] == q;
      assert ps[i] in ps;
    }
  }

  lemma NoMoreThanAll(ps: seq<Peer>, now: nat, total: nat, level: nat)
    requires Shares(ps, now, total, level)
    ensures Sum(ps, Share(now, level)) <= total
  {
  }

  lemma Content(ps: seq<Peer>, now: nat, total: nat, level: nat, t: seq<nat>, j: nat)
    requires Shares(ps, now, total, level) && Feasible(ps, t, total) && j < |ps|
    requires forall p :: p in ps && p.active ==> p.outgoingBandwidth <= level
    ensures |Shared(ps, now, level)| == |ps| && t[j] <= Shared(ps, now, level)[j]
  {
    SharedIs(ps, now, total, level, j);
    assert ps[j] in ps;
  }

  function Sends(bandwidth: nat): Peer { Peer(true, 0, bandwidth, 0, 0, 0, 0, 0, 0) }

  /** Three peers that send at most 3, 3 and 100, with a bandwidth of 10: the passes end at 3 with nobody settled. The last
      peer could have 4. */
  lemma NotAlwaysFair(level: nat, qs: seq<Peer>)
    requires Outcome([Sends(3), Sends(3), Sends(100)], 1, 10, level, qs)
    ensures level == 3 && qs == [Sends(3), Sends(3), Sends(100)] && !MaxMinFair(qs, Shared(qs, 1, level), 10)
  {
    var ps := [Sends(3), Sends(3), Sends(100)];
    ThreeSums(3);
    assert Stable(ps, 10, 3);
    ThreeSums(level);
    assert Sends(100) in ps;
    FairExactly(ps, 1, 10, level, qs);
  }

  lemma ThreeSums(level: nat)
    requires level <= 3
    ensures var ps := [Sends(3), Sends(3), Sends(100)]; Sum(ps, OneAbove(level)) == 3 && Sum(ps, ClaimedBelow(level)) == 0
  {
    var ps := [Sends(3), Sends(3), Sends(100)];
    assert ps[1..] == [Sends(3), Sends(100)] && ps[1..][1..] == [Sends(100)] && ps[1..][1..][1..] == [];
  }

  // The throttles a host keeps to itself: what it sends.

  predicate Open(p: Peer, now: nat) { p.active && p.outgoingEpoch != now }

  function OneOpen(now: nat): Peer -> nat { (p: Peer) => if Open(p, now) then 1 else 0 }

  function OpenData(now: nat): Peer -> nat { (p: Peer) => if Open(p, now) then p.outgoingDataTotal else 0 }

  function ActiveData(): Peer -> nat { (p: Peer) => if p.active then p.outgoingDataTotal else 0 }

  /** What a peer takes in the time elapsed. */
  function PeerBandwidth(p: Peer, elapsed: nat): (b: nat)
    ensures 1000 * b <= p.incomingBandwidth * elapsed < 1000 * (b + 1)
  {
    p.incomingBandwidth * elapsed / 1000
  }

  function ClosedBandwidth(now: nat, elapsed: nat): Peer -> nat {
    (p: Peer) => if p.active && p.outgoingEpoch == now then PeerBandwidth(p, elapsed) else 0
  }

  function Throttle(bandwidth: nat, dataTotal: nat): (t: nat)
    ensures LargestWithin(t, bandwidth, dataTotal)
  {
    if dataTotal <= bandwidth then THROTTLE_SCALE else
      ThrottleBounds(bandwidth, dataTotal);
      bandwidth * THROTTLE_SCALE / dataTotal
  }

  /** The throttle is the largest at which the data fits in the bandwidth. */
  predicate LargestWithin(throttle: nat, bandwidth: nat, dataTotal: nat) {
    && throttle <= 32 && throttle * dataTotal <= 32 * bandwidth
    && (throttle == 32 || (throttle + 1) * dataTotal > 32 * bandwidth)
  }

  lemma ThrottleBounds(bandwidth: nat, dataTotal: nat)
    requires dataTotal > bandwidth
    ensures LargestWithin(bandwidth * THROTTLE_SCALE / dataTotal, bandwidth, dataTotal)
  {
    DividedUp(dataTotal, bandwidth * THROTTLE_SCALE, bandwidth * THROTTLE_SCALE / dataTotal);
    var t := bandwidth * THROTTLE_SCALE / dataTotal;
    assert bandwidth * THROTTLE_SCALE == t * dataTotal + bandwidth * THROTTLE_SCALE % dataTotal;
    assert t > THROTTLE_SCALE ==> t * dataTotal > THROTTLE_SCALE * dataTotal;
  }

  /** The throttle lets no more pass than the bandwidth. */
  lemma ThrottleFits(bandwidth: nat, dataTotal: nat, data: nat)
    requires data <= dataTotal
    ensures Throttle(bandwidth, dataTotal) * data <= THROTTLE_SCALE * bandwidth
  {
    if dataTotal > bandwidth { ThrottleBounds(bandwidth, dataTotal); }
    MulGrows(Throttle(bandwidth, dataTotal), data, dataTotal);
  }

  /** A peer's products stay within 32 bits. */
  ghost predicate NoOverflow(p: Peer, elapsed: nat) {
    p.incomingBandwidth * elapsed < WORD && p.outgoingDataTotal * THROTTLE_SCALE < WORD
  }

  /** q is p held to its own bandwidth: its limit is the largest at which its data fits, or 1. */
  predicate Limited(p: Peer, q: Peer, now: nat, elapsed: nat) {
    && p.active && p.incomingBandwidth > 0 && PeerBandwidth(p, elapsed) < p.outgoingDataTotal
    && var limit := q.packetThrottleLimit;
    && (LargestWithin(limit, PeerBandwidth(p, elapsed), p.outgoingDataTotal)
        || (limit == 1 && LargestWithin(0, PeerBandwidth(p, elapsed), p.outgoingDataTotal)))
    && limit > 0
    && q == p.(packetThrottleLimit := limit, packetThrottle := Min(p.packetThrottle, limit), outgoingEpoch := now,
            incomingDataTotal := 0, outgoingDataTotal := 0)
  }

  /** At this throttle a peer gets no more than it takes. */
  ghost predicate Enough(p: Peer, now: nat, elapsed: nat, throttle: nat) {
    Open(p, now) && p.incomingBandwidth > 0 ==> throttle * p.outgoingDataTotal < 32 * (PeerBandwidth(p, elapsed) + 1)
  }

  lemma EnoughIs(p: Peer, elapsed: nat, throttle: nat)
    ensures throttle * p.outgoingDataTotal / THROTTLE_SCALE <= PeerBandwidth(p, elapsed)
      <==> throttle * p.outgoingDataTotal < 32 * (PeerBandwidth(p, elapsed) + 1)
  {
  }

  /** Exactly those that would get more than they take are limited. */
  ghost predicate AllLimited(ps: seq<Peer>, qs: seq<Peer>, now: nat, elapsed: nat, throttle: nat) {
    && |ps| == |qs|
    && forall i :: 0 <= i < |ps| ==> if Enough(ps[i], now, elapsed, throttle) then qs[i] == ps[i] else Limited(ps[i], qs[i], now, elapsed)
  }

  /** What the peers not yet limited would be sent fits in the bandwidth left. */
  ghost predicate Fits(ps: seq<Peer>, now: nat, throttle: nat, bandwidth: nat, dataTotal: nat) {
    throttle * Sum(ps, OpenData(now)) <= THROTTLE_SCALE * bandwidth && Sum(ps, OpenData(now)) <= dataTotal
  }

  /** Limiting a peer takes its bandwidth from both totals, and neither goes below zero. */
  lemma Take(ps: seq<Peer>, now: nat, elapsed: nat, i: nat, q: Peer, throttle: nat, bandwidth: nat, dataTotal: nat)
    requires i < |ps| && Open(ps[i], now) && !Enough(ps[i], now, elapsed, throttle) && throttle <= THROTTLE_SCALE
    requires Limited(ps[i], q, now, elapsed) && Fits(ps, now, throttle, bandwidth, dataTotal)
    ensures var b := PeerBandwidth(ps[i], elapsed);
      && b <= bandwidth && b <= dataTotal && Fits(ps[i := q], now, throttle, bandwidth - b, dataTotal - b)
      && Sum(ps, OneOpen(now)) > 0 && Sum(ps[i := q], OneOpen(now)) == Sum(ps, OneOpen(now)) - 1
      && Sum(ps[i := q], ClosedBandwidth(now, elapsed)) == Sum(ps, ClosedBandwidth(now, elapsed)) + b
  {
    SumAt(ps, OpenData(now), i, q);
    SumAt(ps, OneOpen(now), i, q);
    SumAt(ps, ClosedBandwidth(now, elapsed), i, q);
    TakeFits(PeerBandwidth(ps[i], elapsed), ps[i].outgoingDataTotal, Sum(ps, OpenData(now)), throttle, bandwidth, dataTotal);
  }

  lemma TakeFits(b: nat, data: nat, open: nat, throttle: nat, bandwidth: nat, dataTotal: nat)
    requires throttle * data >= 32 * (b + 1) && data <= open <= dataTotal && throttle <= THROTTLE_SCALE
    requires throttle * open <= THROTTLE_SCALE * bandwidth
    ensures b < data && b <= bandwidth && b <= dataTotal
    ensures throttle * (open - data) <= THROTTLE_SCALE * (bandwidth - b) && open - data <= dataTotal - b
  {
    assert throttle * data <= THROTTLE_SCALE * data;
    assert throttle * open == throttle * data + throttle * (open - data);
    assert throttle * (open - data) >= 0;
  }

  lemma TooMuch(p: Peer, now: nat, elapsed: nat, throttle: nat)
    requires !Enough(p, now, elapsed, throttle) && throttle <= THROTTLE_SCALE
    ensures PeerBandwidth(p, elapsed) < p.outgoingDataTotal
  {
    assert throttle * p.outgoingDataTotal <= THROTTLE_SCALE * p.outgoingDataTotal;
  }

  lemma IsOpen(p: Peer, now: nat, elapsed: nat, throttle: nat)
    requires !Enough(p, now, elapsed, throttle)
    ensures Open(p, now)
  {
  }

  lemma EnoughTest(p: Peer, now: nat, elapsed: nat, throttle: nat)
    ensures Enough(p, now, elapsed, throttle) <==>
      !Open(p, now) || p.incomingBandwidth == 0 || throttle * p.outgoingDataTotal / THROTTLE_SCALE <= PeerBandwidth(p, elapsed)
  {
    EnoughIs(p, elapsed, throttle);
  }

  /** One pass over the peers with a fixed throttle. */
  method LimitPeers(peers: array<Peer>, now: nat, elapsed: nat, throttle: nat, remaining: nat, bandwidth: nat, dataTotal: nat)
    returns (adjusted: bool, remaining': nat, bandwidth': nat, dataTotal': nat)
    requires remaining == Sum(peers[..], OneOpen(now)) && throttle <= THROTTLE_SCALE
    requires forall i :: 0 <= i < peers.Length ==> NoOverflow(peers[i], elapsed)
    requires Fits(peers[..], now, throttle, bandwidth, dataTotal)
    modifies peers
    ensures AllLimited(old(peers[..]), peers[..], now, elapsed, throttle)
    ensures remaining' == Sum(peers[..], OneOpen(now)) && Fits(peers[..], now, throttle, bandwidth', dataTotal')
    ensures bandwidth' + Sum(peers[..], ClosedBandwidth(now, elapsed)) == bandwidth + Sum(old(peers[..]), ClosedBandwidth(now, elapsed))
    ensures bandwidth - bandwidth' == dataTotal - dataTotal'
    ensures adjusted ==> remaining' < remaining
    ensures !adjusted ==> remaining' == remaining && bandwidth' == bandwidth && dataTotal' == dataTotal
    ensures !adjusted <==> forall i :: 0 <= i < peers.Length ==> Enough(old(peers[i]), now, elapsed, throttle)
  {
    hide Limited, Fits, Enough, NoOverflow, LargestWithin;
    adjusted, remaining', bandwidth', dataTotal' := false, remaining, bandwidth, dataTotal;
    var i := 0;
    while i < peers.Length
      invariant i <= peers.Length
      invariant remaining' == Sum(peers[..], OneOpen(now)) && Fits(peers[..], now, throttle, bandwidth', dataTotal')
      invariant bandwidth' + Sum(peers[..], ClosedBandwidth(now, elapsed)) == bandwidth + Sum(old(peers[..]), ClosedBandwidth(now, elapsed))
      invariant bandwidth - bandwidth' == dataTotal - dataTotal'
      invariant adjusted ==> remaining' < remaining
      invariant !adjusted ==> remaining' == remaining && bandwidth' == bandwidth && dataTotal' == dataTotal
      invariant forall j :: 0 <= j < i ==>
        if Enough(old(peers[j]), now, elapsed, throttle) then peers[j] == old(peers[j]) else Limited(old(peers[j]), peers[j], now, elapsed)
      invariant !adjusted <==> forall j :: 0 <= j < i ==> Enough(old(peers[j]), now, elapsed, throttle)
      invariant forall j :: i <= j < peers.Length ==> peers[j] == old(peers[j])
    {
      var peer := peers[i];
      EnoughTest(peer, now, elapsed, throttle);
      if Open(peer, now) && peer.incomingBandwidth != 0
         && throttle * peer.outgoingDataTotal / THROTTLE_SCALE > PeerBandwidth(peer, elapsed)
      {
        ghost var before := peers[..];
        TooMuch(peer, now, elapsed, throttle);
        IsOpen(peer, now, elapsed, throttle);
        var limited := LimitPeer(peer, now, elapsed, throttle);
        Take(before, now, elapsed, i, limited, throttle, bandwidth', dataTotal');
        peers[i] := limited;
        assert peers[..] == before[i := limited];
        adjusted := true;
        remaining' := remaining' - 1;
        bandwidth', dataTotal' := bandwidth' - PeerBandwidth(peer, elapsed), dataTotal' - PeerBandwidth(peer, elapsed);
      }
      i := i + 1;
    }
  }

  lemma ProductsFit(peer: Peer, now: nat, elapsed: nat, throttle: nat)
    requires NoOverflow(peer, elapsed) && throttle <= THROTTLE_SCALE
    requires !Enough(peer, now, elapsed, throttle) && PeerBandwidth(peer, elapsed) < peer.outgoingDataTotal
    ensures peer.active && peer.incomingBandwidth > 0
    ensures peer.incomingBandwidth * elapsed < WORD && PeerBandwidth(peer, elapsed) * THROTTLE_SCALE < WORD
    ensures throttle * peer.outgoingDataTotal < WORD
  {
    assert throttle * peer.outgoingDataTotal <= THROTTLE_SCALE * peer.outgoingDataTotal;
  }

  /** The assignments of the loop body. */
  method LimitPeer(peer: Peer, now: nat, elapsed: nat, throttle: nat) returns (limited: Peer)
    requires NoOverflow(peer, elapsed) && throttle <= THROTTLE_SCALE
    requires !Enough(peer, now, elapsed, throttle) && PeerBandwidth(peer, elapsed) < peer.outgoingDataTotal
    ensures Limited(peer, limited, now, elapsed)
  {
    hide LargestWithin, PeerBandwidth, Enough, NoOverflow;
    ProductsFit(peer, now, elapsed, throttle);
    var peerBandwidth := PeerBandwidth(peer, elapsed);
    ThrottleBounds(peerBandwidth, peer.outgoingDataTotal);
    limited := peer.(packetThrottleLimit := peerBandwidth * THROTTLE_SCALE / peer.outgoingDataTotal);
    if limited.packetThrottleLimit == 0 { limited := limited.(packetThrottleLimit := 1); }
    if limited.packetThrottle > limited.packetThrottleLimit {
      limited := limited.(packetThrottle := limited.packetThrottleLimit);
    }
    limited := limited.(outgoingEpoch := now, incomingDataTotal := 0, outgoingDataTotal := 0);
  }

  /** Where a pass has been made, another one at the same throttle would limit nobody. */
  lemma AfterPass(ps: seq<Peer>, qs: seq<Peer>, now: nat, elapsed: nat, throttle: nat)
    requires AllLimited(ps, qs, now, elapsed, throttle) && forall i :: 0 <= i < |ps| ==> NoOverflow(ps[i], elapsed)
    ensures forall i :: 0 <= i < |qs| ==> Enough(qs[i], now, elapsed, throttle) && NoOverflow(qs[i], elapsed)
  {
    hide LargestWithin;
    forall i | 0 <= i < |qs| ensures Enough(qs[i], now, elapsed, throttle) && NoOverflow(qs[i], elapsed) {
      assert qs[i] == ps[i] || Limited(ps[i], qs[i], now, elapsed);
    }
  }

  lemma EnoughBelow(p: Peer, now: nat, elapsed: nat, throttle: nat, more: nat)
    requires throttle <= more && Enough(p, now, elapsed, more)
    ensures Enough(p, now, elapsed, throttle)
  {
    assert (more - throttle) * p.outgoingDataTotal >= 0;
    assert more * p.outgoingDataTotal == throttle * p.outgoingDataTotal + (more - throttle) * p.outgoingDataTotal;
  }

  lemma AllEnoughBelow(ps: seq<Peer>, now: nat, elapsed: nat, throttle: nat, more: nat)
    requires throttle <= more && forall i :: 0 <= i < |ps| ==> Enough(ps[i], now, elapsed, more)
    ensures forall i :: 0 <= i < |ps| ==> Enough(ps[i], now, elapsed, throttle)
  {
    hide Enough;
    forall i | 0 <= i < |ps| ensures Enough(ps[i], now, elapsed, throttle) { EnoughBelow(ps[i], now, elapsed, throttle, more); }
  }

  /** Taking the same from bandwidth and data lowers the throttle. */
  lemma ThrottleFalls(throttle: nat, bandwidth: nat, dataTotal: nat, less: nat, taken: nat)
    requires LargestWithin(throttle, bandwidth, dataTotal) && taken <= bandwidth && taken <= dataTotal
    requires LargestWithin(less, bandwidth - taken, dataTotal - taken)
    ensures less <= throttle
  {
    if less > throttle {
      var up := throttle + 1;
      MulGrows(dataTotal - taken, up, less);
      Difference(dataTotal, taken, up);
      MulGrows(taken, up, 32);
    }
  }

  lemma {:induction false} NoneClosed(ps: seq<Peer>, now: nat, elapsed: nat)
    requires forall i :: 0 <= i < |ps| && ps[i].active ==> ps[i].outgoingEpoch != now
    ensures Sum(ps, ClosedBandwidth(now, elapsed)) == 0 && Sum(ps, OpenData(now)) == Sum(ps, ActiveData())
  {
    if ps != [] { NoneClosed(ps[1..], now, elapsed); }
  }

  lemma {:induction false} NoneOpen(ps: seq<Peer>, now: nat)
    requires Sum(ps, OneOpen(now)) == 0
    ensures forall p :: p in ps ==> !Open(p, now)
  {
    if ps != [] { NoneOpen(ps[1..], now); }
  }

  lemma NobodyLimited(ps: seq<Peer>, now: nat, elapsed: nat, throttle: nat)
    requires Sum(ps, OneOpen(now)) == 0 || forall i :: 0 <= i < |ps| && ps[i].active ==> ps[i].incomingBandwidth == 0
    ensures AllLimited(ps, ps, now, elapsed, throttle)
  {
    if Sum(ps, OneOpen(now)) == 0 { NoneOpen(ps, now); }
    forall i | 0 <= i < |ps| ensures Enough(ps[i], now, elapsed, throttle) { assert ps[i] in ps; }
  }

  /** The loop that limits peers until those left have enough at the throttle they would get. It is through after one pass: the
      peers limited are those that would get more than they take at the throttle of the first one. */
  method FindThrottle(peers: array<Peer>, now: nat, elapsed: nat, connected: nat, limitedPeers: nat, bandwidth: nat, dataTotal: nat)
    returns (remaining: nat, throttle: nat)
    requires forall i :: 0 <= i < peers.Length ==> NoOverflow(peers[i], elapsed)
    requires forall i :: 0 <= i < peers.Length && peers[i].active ==> peers[i].outgoingEpoch != now
    requires connected == Sum(peers[..], OneOpen(now)) && Sum(peers[..], ActiveData()) <= dataTotal
    requires limitedPeers == 0 ==> forall i :: 0 <= i < peers.Length && peers[i].active ==> peers[i].incomingBandwidth == 0
    requires dataTotal > bandwidth ==> bandwidth * THROTTLE_SCALE < WORD
    modifies peers
    ensures AllLimited(old(peers[..]), peers[..], now, elapsed, Throttle(bandwidth, dataTotal))
    ensures remaining == Sum(peers[..], OneOpen(now))
    ensures var closed := Sum(peers[..], ClosedBandwidth(now, elapsed));
      closed <= bandwidth && closed <= dataTotal && LargestWithin(throttle, bandwidth - closed, dataTotal - closed)
    ensures forall i :: 0 <= i < peers.Length ==> Enough(peers[i], now, elapsed, throttle)
    ensures Sum(peers[..], ClosedBandwidth(now, elapsed)) * THROTTLE_SCALE + throttle * Sum(peers[..], OpenData(now)) <= bandwidth * THROTTLE_SCALE
  {
    hide Limited, Throttle, Sum, Enough, LargestWithin;
    NoneClosed(peers[..], now, elapsed);
    var needsAdjustment := limitedPeers > 0;
    var left: nat, data: nat := bandwidth, dataTotal;
    ghost var start, first, begun := peers[..], Throttle(bandwidth, dataTotal), false;
    remaining := connected;
    while remaining > 0 && needsAdjustment
      invariant begun ==> AllLimited(start, peers[..], now, elapsed, first)
      invariant begun ==> forall i :: 0 <= i < peers.Length ==> Enough(peers[i], now, elapsed, first)
      invariant !begun ==> peers[..] == start && left == bandwidth && remaining == connected && needsAdjustment == (limitedPeers > 0)
      invariant forall i :: 0 <= i < peers.Length ==> NoOverflow(peers[i], elapsed)
      invariant remaining == Sum(peers[..], OneOpen(now)) && Sum(peers[..], OpenData(now)) <= data
      invariant left + Sum(peers[..], ClosedBandwidth(now, elapsed)) == bandwidth && bandwidth - left == dataTotal - data
      decreases remaining, needsAdjustment
    {
      ThrottleFits(left, data, Sum(peers[..], OpenData(now)));
      assert data > left ==> left * THROTTLE_SCALE < WORD;
      throttle := Throttle(left, data);
      ThrottleFalls(first, bandwidth, dataTotal, throttle, bandwidth - left);
      ghost var before := peers[..];
      if begun { AllEnoughBelow(before, now, elapsed, throttle, first); }
      LargestAtMost(throttle, left, data);
      needsAdjustment, remaining, left, data := LimitPeers(peers, now, elapsed, throttle, remaining, left, data);
      AfterPass(before, peers[..], now, elapsed, throttle);
      if begun { assert peers[..] == before; }
      begun := true;
    }
    if !begun {
      NobodyLimited(start, now, elapsed, first);
      AfterPass(start, start, now, elapsed, first);
    }
    ThrottleFits(left, data, Sum(peers[..], OpenData(now)));
    throttle := Throttle(left, data);
    ThrottleFalls(first, bandwidth, dataTotal, throttle, bandwidth - left);
    AllEnoughBelow(peers[..], now, elapsed, throttle, first);
  }

  lemma LargestAtMost(throttle: nat, bandwidth: nat, dataTotal: nat)
    requires LargestWithin(throttle, bandwidth, dataTotal)
    ensures throttle <= THROTTLE_SCALE
  {
  }

  /** q is p at the throttle of all the peers that need no limit of their own. */
  predicate Throttled(p: Peer, q: Peer, throttle: nat) {
    q == p.(packetThrottleLimit := throttle, packetThrottle := Min(p.packetThrottle, throttle), incomingDataTotal := 0, outgoingDataTotal := 0)
  }

  /** The loop over the peers not limited. */
  method ApplyThrottle(peers: array<Peer>, now: nat, throttle: nat)
    modifies peers
    ensures forall i :: 0 <= i < peers.Length ==>
      if old(Open(peers[i], now)) then Throttled(old(peers[i]), peers[i], throttle) else peers[i] == old(peers[i])
  {
    var i := 0;
    while i < peers.Length
      invariant i <= peers.Length && forall j :: i <= j < peers.Length ==> peers[j] == old(peers[j])
      invariant forall j :: 0 <= j < i ==>
        if old(Open(peers[j], now)) then Throttled(old(peers[j]), peers[j], throttle) else peers[j] == old(peers[j])
    {
      var peer := peers[i];
      if Open(peer, now) {
        peer := peer.(packetThrottleLimit := throttle);
        if peer.packetThrottle > peer.packetThrottleLimit { peer := peer.(packetThrottle := peer.packetThrottleLimit); }
        peers[i] := peer.(incomingDataTotal := 0, outgoingDataTotal := 0);
      }
      i := i + 1;
    }
  }

  /** What each peer ends with, first being the throttle before anybody is limited: its own limit where it would get more than
      it takes at that, and the throttle of the others where not. */
  ghost predicate Served(p: Peer, q: Peer, now: nat, elapsed: nat, first: nat, throttle: nat) {
    if !p.active then q == p
    else if Enough(p, now, elapsed, first) then Throttled(p, q, throttle) && Enough(p, now, elapsed, throttle)
    else Limited(p, q, now, elapsed)
  }

  /** The outgoing half of enet_host_bandwidth_throttle. limited shows the peers between its two loops: what the limited ones
      take, and what the others are sent at the throttle, is no more than the host's bandwidth, and a higher throttle would
      leave too little for what the totals say is still to be sent. */
  method ThrottleOutgoing(peers: array<Peer>, now: nat, elapsed: nat, outgoingBandwidth: nat, connected: nat, limitedPeers: nat)
    returns (ghost first: nat, throttle: nat, ghost limited: seq<Peer>)
    requires forall i :: 0 <= i < peers.Length ==> NoOverflow(peers[i], elapsed)
    requires forall i :: 0 <= i < peers.Length && peers[i].active ==> peers[i].outgoingEpoch != now
    requires connected == Sum(peers[..], OneOpen(now)) && Sum(peers[..], ActiveData()) < WORD
    requires limitedPeers == 0 ==> forall i :: 0 <= i < peers.Length && peers[i].active ==> peers[i].incomingBandwidth == 0
    requires outgoingBandwidth * elapsed < WORD && outgoingBandwidth * elapsed / 1000 * THROTTLE_SCALE < WORD
    modifies peers
    ensures if outgoingBandwidth == 0 then first == 32
      else LargestWithin(first, outgoingBandwidth * elapsed / 1000, Sum(old(peers[..]), ActiveData()))
    ensures AllLimited(old(peers[..]), limited, now, elapsed, first)
    ensures connected == 0 ==> peers[..] == old(peers[..])
    ensures connected > 0 ==> forall i :: 0 <= i < peers.Length ==> Served(old(peers[i]), peers[i], now, elapsed, first, throttle)
    ensures connected > 0 && outgoingBandwidth == 0 ==> throttle == 32
    ensures connected > 0 && outgoingBandwidth != 0 ==>
      var closed, bandwidth, data := Sum(limited, ClosedBandwidth(now, elapsed)), outgoingBandwidth * elapsed / 1000, Sum(old(peers[..]), ActiveData());
      && closed <= bandwidth && closed <= data && LargestWithin(throttle, bandwidth - closed, data - closed)
      && closed * 32 + throttle * Sum(limited, OpenData(now)) <= bandwidth * 32
  {
    hide Limited, Enough, LargestWithin, Throttle, Sum;
    throttle, limited := 0, peers[..];
    var dataTotal, bandwidth := WORD - 1, WORD - 1;
    if outgoingBandwidth != 0 {
      dataTotal := DataTotal(peers);
      bandwidth := outgoingBandwidth * elapsed / 1000;
    }
    first := Throttle(bandwidth, dataTotal);
    if outgoingBandwidth == 0 { Unlimited(first, bandwidth); }
    if connected == 0 { NobodyLimited(limited, now, elapsed, first); return; }
    var remaining;
    remaining, throttle := FindThrottle(peers, now, elapsed, connected, limitedPeers, bandwidth, dataTotal);
    limited := peers[..];
    if outgoingBandwidth == 0 { Unlimited(throttle, bandwidth - Sum(limited, ClosedBandwidth(now, elapsed))); }
    if remaining > 0 { ApplyThrottle(peers, now, throttle); } else { NoneOpen(limited, now); }
    forall i | 0 <= i < peers.Length ensures Served(old(peers[i]), peers[i], now, elapsed, first, throttle) {
      assert limited[i] in limited;
      IsServed(old(peers[i]), limited[i], peers[i], now, elapsed, first, throttle);
    }
  }

  lemma Unlimited(throttle: nat, bandwidth: nat)
    requires LargestWithin(throttle, bandwidth, bandwidth)
    ensures throttle == 32
  {
  }

  lemma IsServed(p: Peer, m: Peer, q: Peer, now: nat, elapsed: nat, first: nat, throttle: nat)
    requires if Enough(p, now, elapsed, first) then m == p else Limited(p, m, now, elapsed)
    requires if Open(m, now) then Throttled(m, q, throttle) else q == m
    requires (p.active ==> p.outgoingEpoch != now) && Enough(m, now, elapsed, throttle)
    ensures Served(p, q, now, elapsed, first, throttle)
  {
    hide LargestWithin;
  }

  method DataTotal(peers: array<Peer>) returns (total: nat)
    ensures total == Sum(peers[..], ActiveData())
  {
    total := 0;
    var i := 0;
    assert peers[0..] == peers[..];
    while i < peers.Length
      invariant i <= peers.Length && total + Sum(peers[i..], ActiveData()) == Sum(peers[..], ActiveData())
    {
      assert peers[i..][1..] == peers[i + 1..];
      if peers[i].active { total := total + peers[i].outgoingDataTotal; }
      i := i + 1;
    }
  }
}
