/** What becomes of traffic updates: every one is numbered, and ends in one list. */
module Updates {
  import opened Traffic

  type Tid = nat
  type Id = nat

  datatype Stamped = Stamped(k: nat, u: Traffic)

  /** Held by an updater, or at a position of a session's list of credited, late or missed updates. */
  datatype Fate = InFlight(t: Tid) | Credited(id: Id, i: nat) | Late(id: Id, i: nat) | Missed(id: Id, i: nat)

  type Lists = map<Id, seq<Stamped>>

  /**
   * Updates asked for so far and the fate of each; those credited to a record before it was sealed,
   * those written to it afterwards, and those that found no active session.
   */
  datatype History = History(asked: nat, fates: map<nat, Fate>, credited: Lists, late: Lists, missed: Lists)

  const NOTHING := History(0, map[], map[], map[], map[])

  function Past(lists: Lists, id: Id): seq<Stamped> { if id in lists then lists[id] else [] }

  function Put(lists: Lists, id: Id, s: Stamped): Lists { lists[id := Past(lists, id) + [s]] }

  /** The lookup found the session; the updater now holds on to its record. */
  function Issue(h: History, t: Tid): History
  {
    h.(asked := h.asked + 1, fates := h.fates[h.asked := InFlight(t)])
  }

  /** The lookup found nothing. */
  function Miss(h: History, id: Id, u: Traffic): History
  {
    h.(asked := h.asked + 1, fates := h.fates[h.asked := Missed(id, |Past(h.missed, id)|)],
       missed := Put(h.missed, id, Stamped(h.asked, u)))
  }

  /** The update is written, to a record that may have been sealed in the meantime. */
  function Settle(h: History, id: Id, k: nat, u: Traffic, sealed: bool): History
  {
    if sealed
    then h.(fates := h.fates[k := Late(id, |Past(h.late, id)|)], late := Put(h.late, id, Stamped(k, u)))
    else h.(fates := h.fates[k := Credited(id, |Past(h.credited, id)|)], credited := Put(h.credited, id, Stamped(k, u)))
  }

  predicate Holds(lists: Lists, id: Id, i: nat, k: nat) { i < |Past(lists, id)| && Past(lists, id)[i].k == k }

  /** `flying` says which update each updater holds. */
  predicate HasFate(h: History, flying: map<Tid, nat>, k: nat, f: Fate)
  {
    match f
    case InFlight(t) => t in flying && flying[t] == k
    case Credited(id, i) => Holds(h.credited, id, i, k)
    case Late(id, i) => Holds(h.late, id, i, k)
    case Missed(id, i) => Holds(h.missed, id, i, k)
  }

  /** Every update asked for has one fate, and nothing else has any. */
  ghost predicate OneFate(h: History, flying: map<Tid, nat>)
  {
    && (forall k: nat, f: Fate :: HasFate(h, flying, k, f) <==> k in h.fates && h.fates[k] == f)
    && (forall k: nat :: k in h.fates <==> k < h.asked)
  }

  /** One update changes its fate. */
  lemma OneMoves(h: History, h': History, flying: map<Tid, nat>, flying': map<Tid, nat>, k: nat, to: Fate)
    requires OneFate(h, flying) && h'.fates == h.fates[k := to] && k <= h.asked
    requires h'.asked == if k == h.asked then h.asked + 1 else h.asked
    requires forall j: nat, f: Fate :: HasFate(h', flying', j, f) <==> if j == k then f == to else HasFate(h, flying, j, f)
    ensures OneFate(h', flying')
  {
    hide HasFate;
  }

  lemma PutHolds(lists: Lists, id: Id, k: nat, u: Traffic)
    ensures forall id', i, j ::
        Holds(Put(lists, id, Stamped(k, u)), id', i, j)
        <==> Holds(lists, id', i, j) || (id' == id && i == |Past(lists, id)| && j == k)
  {}

  lemma IssueKeeps(h: History, flying: map<Tid, nat>, t: Tid)
    requires OneFate(h, flying) && t !in flying
    ensures OneFate(Issue(h, t), flying[t := h.asked])
  {
    var h', flying' := Issue(h, t), flying[t := h.asked];
    forall j: nat, f: Fate
      ensures HasFate(h', flying', j, f) <==> if j == h.asked then f == InFlight(t) else HasFate(h, flying, j, f)
    {
      assert HasFate(h, flying, j, f) ==> j in h.fates;
    }
    OneMoves(h, h', flying, flying', h.asked, InFlight(t));
  }

  lemma MissKeeps(h: History, flying: map<Tid, nat>, id: Id, u: Traffic)
    requires OneFate(h, flying)
    ensures OneFate(Miss(h, id, u), flying)
  {
    var h', to := Miss(h, id, u), Missed(id, |Past(h.missed, id)|);
    PutHolds(h.missed, id, h.asked, u);
    hide Put, Holds;
    forall j: nat, f: Fate ensures HasFate(h', flying, j, f) <==> if j == h.asked then f == to else HasFate(h, flying, j, f) {
      assert HasFate(h, flying, j, f) ==> j in h.fates;
      assert !HasFate(h, flying, j, to);
    }
    OneMoves(h, h', flying, flying, h.asked, to);
  }

  lemma SettleKeeps(h: History, flying: map<Tid, nat>, t: Tid, id: Id, u: Traffic, sealed: bool)
    requires OneFate(h, flying) && t in flying
    ensures OneFate(Settle(h, id, flying[t], u, sealed), flying - {t})
  {
    var k := flying[t];
    var h', flying' := Settle(h, id, k, u, sealed), flying - {t};
    var to := if sealed then Late(id, |Past(h.late, id)|) else Credited(id, |Past(h.credited, id)|);
    PutHolds(h.late, id, k, u);
    PutHolds(h.credited, id, k, u);
    assert HasFate(h, flying, k, InFlight(t));
    assert forall j :: !Holds(h.late, id, |Past(h.late, id)|, j) && !Holds(h.credited, id, |Past(h.credited, id)|, j);
    hide Put, Holds;
    forall j: nat, f: Fate ensures HasFate(h', flying', j, f) <==> if j == k then f == to else HasFate(h, flying, j, f) {
      assert HasFate(h, flying, j, f) ==> j in h.fates && h.fates[j] == f;
    }
    OneMoves(h, h', flying, flying', k, to);
  }

  // ----- what a list comes to -----

  function Amounts(list: seq<Stamped>): seq<Traffic> { seq(|list|, i requires 0 <= i < |list| => list[i].u) }

  /** What these updates come to for one session. */
  function Bill(lists: Lists, id: Id): Traffic { CreditAll(NO_TRAFFIC, Amounts(Past(lists, id))) }

  /** The same without a cap. */
  function Total(lists: Lists, id: Id): Traffic { Sum(Amounts(Past(lists, id))) }

  lemma PutAdds(lists: Lists, id: Id, s: Stamped)
    ensures var after := Put(lists, id, s);
      && Bill(after, id) == Credit(Bill(lists, id), s.u)
      && Total(after, id) == Plus(Total(lists, id), s.u)
      && forall other :: other != id ==> Past(after, other) == Past(lists, other)
  {
    var before := Amounts(Past(lists, id));
    assert Amounts(Past(lists, id) + [s]) == before + [s.u];
    assert (before + [s.u])[..|before|] == before;
    hide Credit, Plus;
  }

  /** A bill is the exact total, capped. */
  lemma BillIsTheTotal(lists: Lists, id: Id)
    ensures Bill(lists, id) == Capped(Total(lists, id))
  {
    SaturatingOnceIsEnough(NO_TRAFFIC, Amounts(Past(lists, id)));
    hide CreditAll, Sum;
  }
}
