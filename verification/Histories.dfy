/** Whole histories: what any sequence of legal transactions, cut at any point, keeps. */
module Histories {
  import opened Booking
  import opened SeatLedger
  import opened Money

  /** Each transaction of `cs` is enabled when its turn comes. */
  ghost predicate Legal(db: Db, cs: seq<Commit>)
    decreases |cs|
  {
    cs == [] || (Enabled(db, cs[0]) && Legal(Apply(db, cs[0]), cs[1..]))
  }

  ghost function Play(db: Db, cs: seq<Commit>): Db
    decreases |cs|
  {
    if cs == [] then db else Play(Apply(db, cs[0]), cs[1..])
  }

  lemma {:induction false} LegalSplits(db: Db, before: seq<Commit>, rest: seq<Commit>)
    ensures Legal(db, before + rest) <==> Legal(db, before) && Legal(Play(db, before), rest)
    ensures Play(db, before + rest) == Play(Play(db, before), rest)
    decreases |before|
  {
    if before == [] {
      assert before + rest == rest;
    } else {
      assert (before + rest)[1..] == before[1..] + rest;
      LegalSplits(Apply(db, before[0]), before[1..], rest);
    }
  }

  lemma {:induction false} HistoryEvolves(db: Db, cs: seq<Commit>)
    requires Legal(db, cs)
    ensures Evolves(db, Play(db, cs))
    decreases |cs|
  {
    if cs == [] {
    } else {
      CommitEvolves(db, cs[0]);
      HistoryEvolves(Apply(db, cs[0]), cs[1..]);
      EvolvesIsTransitive(db, Apply(db, cs[0]), Play(db, cs));
    }
  }

  /** Ledger and books survive every legal history. */
  lemma {:induction false} HistoryKeepsSound(db: Db, cs: seq<Commit>)
    requires Sound(db) && Legal(db, cs)
    ensures Sound(Play(db, cs)) && Evolves(db, Play(db, cs))
    decreases |cs|
  {
    if cs == [] {
    } else {
      HistoryEvolves(db, cs);
      CommitKeepsSound(db, cs[0]);
      HistoryKeepsSound(Apply(db, cs[0]), cs[1..]);
    }
  }

  /** At every moment of every legal history, between any two transactions: ledger and books hold, and
      the money stamped paid plus the bills still unstamped is the price of everything sold. */
  lemma EveryMomentIsSound(db: Db, cs: seq<Commit>, k: nat)
    requires Sound(db) && Legal(db, cs) && k <= |cs|
    ensures Legal(db, cs[..k])
    ensures var now := Play(db, cs[..k]);
            Sound(now) && Evolves(db, now) && PaidTotal(now) + UnsettledTotal(now) == SoldTotal(now)
  {
    assert cs == cs[..k] + cs[k..];
    LegalSplits(db, cs[..k], cs[k..]);
    HistoryKeepsSound(db, cs[..k]);
    MoneyIsConserved(Play(db, cs[..k]));
  }

  /** No double booking: a seat sold at one moment of a history belongs, at every later moment, to
      the same completed reservation and to no other. */
  lemma NoDoubleBooking(db: Db, cs: seq<Commit>, i: nat, j: nat, x: SeatId)
    requires Sound(db) && Legal(db, cs) && i <= j <= |cs|
    ensures Evolves(Play(db, cs[..i]), Play(db, cs[..j]))
    ensures StaysSold(Play(db, cs[..i]), Play(db, cs[..j]), x)
  {
    EveryMomentIsSound(db, cs, i);
    EveryMomentIsSound(db, cs, j);
    assert cs[..j] == cs[..i] + cs[i..j];
    LegalSplits(db, cs[..i], cs[i..j]);
    HistoryKeepsSound(Play(db, cs[..i]), cs[i..j]);
    SoldSeatStaysSold(Play(db, cs[..i]), Play(db, cs[..j]), x);
  }
}
