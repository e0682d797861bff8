/** Traffic counters: four 64-bit numbers that saturate instead of wrapping. */
module Traffic {
  import opened Basics

  datatype Traffic = Traffic(bytesSent: nat, bytesReceived: nat, packetsSent: nat, packetsReceived: nat)

  const NO_TRAFFIC := Traffic(0, 0, 0, 0)

  /** One update as the session manager applies it. */
  function Credit(t: Traffic, u: Traffic): Traffic
  {
    Traffic(SatAdd(t.bytesSent, u.bytesSent), SatAdd(t.bytesReceived, u.bytesReceived),
            SatAdd(t.packetsSent, u.packetsSent), SatAdd(t.packetsReceived, u.packetsReceived))
  }

  /** Updates applied in order. */
  function CreditAll(t: Traffic, updates: seq<Traffic>): Traffic
  {
    if updates == [] then t else Credit(CreditAll(t, updates[..|updates| - 1]), updates[|updates| - 1])
  }

  /** The exact sum, in unbounded arithmetic. */
  function Sum(updates: seq<Traffic>): Traffic
  {
    if updates == [] then NO_TRAFFIC else Plus(Sum(updates[..|updates| - 1]), updates[|updates| - 1])
  }

  function Plus(a: Traffic, b: Traffic): Traffic
  {
    Traffic(a.bytesSent + b.bytesSent, a.bytesReceived + b.bytesReceived,
            a.packetsSent + b.packetsSent, a.packetsReceived + b.packetsReceived)
  }

  function Capped(t: Traffic): Traffic { Credit(NO_TRAFFIC, t) }

  predicate IsU64(t: Traffic)
  {
    t.bytesSent <= MAX_U64 && t.bytesReceived <= MAX_U64 && t.packetsSent <= MAX_U64 && t.packetsReceived <= MAX_U64
  }

  /** Saturating at every update gives the exact sum capped once, so nothing is lost below the cap and order is irrelevant. */
  lemma {:induction false} SaturatingOnceIsEnough(t: Traffic, updates: seq<Traffic>)
    requires IsU64(t)
    ensures CreditAll(t, updates) == Capped(Plus(t, Sum(updates)))
    ensures IsU64(CreditAll(t, updates))
    decreases |updates|
  {
    if updates != [] { SaturatingOnceIsEnough(t, updates[..|updates| - 1]); }
  }

  lemma SumSnoc(updates: seq<Traffic>, u: Traffic)
    ensures Sum(updates + [u]) == Plus(Sum(updates), u)
  {
    assert (updates + [u])[..|updates|] == updates;
  }
}
