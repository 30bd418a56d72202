/** Named leases on rows of a table, shared by any number of clients (leases.leases). */
module Leases {
  datatype Row = Row(expires: int, nonce: nat)

  // What a client believes it holds, as of the time it last read.
  datatype Held<N> = Held(name: N, nonce: nat, expires: int, asOf: int, released: bool)

  datatype Acquired = Busy(until: int) | Got(id: nat) | Lost

  // The row of the lease still carries its nonce, and lasts as long as its client believes.
  predicate Owns<N(==)>(rows: map<N, Row>, h: Held<N>, slack: nat) {
    h.name in rows && rows[h.name].nonce == h.nonce && rows[h.name].expires >= h.expires - slack
  }

  // A lease is released, or its client's row is there, or it has expired.
  predicate Fine<N(==)>(rows: map<N, Row>, h: Held<N>, slack: nat, clock: int) {
    h.released || Owns(rows, h, slack) || h.expires - slack <= clock
  }

  ghost predicate Kept<N>(rows: map<N, Row>, held: seq<Held<N>>, slack: nat, clock: int) {
    forall i | 0 <= i < |held| :: Fine(rows, held[i], slack, clock)
  }

  // Nonces tell leases apart, and a nonce belongs to one name.
  ghost predicate Distinct<N>(rows: map<N, Row>, held: seq<Held<N>>, nextNonce: nat) {
    && (forall i | 0 <= i < |held| :: held[i].nonce < nextNonce)
    && (forall n | n in rows :: rows[n].nonce < nextNonce)
    && (forall i, j | 0 <= i < j < |held| :: held[i].nonce != held[j].nonce)
    && (forall i, n | 0 <= i < |held| && n in rows && rows[n].nonce == held[i].nonce :: n == held[i].name)
  }

  ghost predicate Dated<N>(held: seq<Held<N>>, lifetime: nat, clock: int) {
    forall i | 0 <= i < |held| :: held[i].asOf <= clock && held[i].expires <= held[i].asOf + lifetime
  }

  datatype Event<N> =
    | Tick(d: nat)
    | Acquire(name: N, now: int, stored: int, lost: bool)
    | Renew(id: nat, now: int, stored: int, executed: bool, lost: bool)
    | Release(id: nat)

  // The table, the clock that all clients share, and every lease ever acquired.
  // The database keeps an expiration time up to slack earlier than it was given.
  class Leases<N(==,!new)> {
    const lifetime: nat
    const slack: nat
    const millisecond: nat
    var clock: int
    var rows: map<N, Row>
    var held: seq<Held<N>>
    var nextNonce: nat

    ghost predicate Valid()
      reads this
    {
      && millisecond > 0
      && Kept(rows, held, slack, clock)
      && Distinct(rows, held, nextNonce)
      && Dated(held, lifetime, clock)
    }

    constructor (lifetime: nat, slack: nat, millisecond: nat)
      requires millisecond > 0
      ensures Valid() && this.lifetime == lifetime && this.slack == slack && this.millisecond == millisecond
      ensures clock == 0 && rows == map[] && held == []
    {
      this.lifetime, this.slack, this.millisecond := lifetime, slack, millisecond;
      clock, rows, held, nextNonce := 0, map[], [], 0;
    }

    method Tick(d: nat)
      requires Valid()
      modifies `clock
      ensures Valid() && clock == old(clock) + d
    {
      clock := clock + d;
    }

    // The clock was read at some earlier time and truncated; stored is what the
    // database keeps of the expiration time. The answer may get lost.
    method TryAcquire(name: N, now: int, stored: int, lost: bool) returns (r: Acquired)
      requires Valid() && now <= clock && stored >= now - now % millisecond + lifetime - slack
      modifies `rows, `held, `nextNonce
      ensures Valid()
      ensures var at := now - now % millisecond;
              if name in old(rows) && old(rows)[name].expires > at
              then r == Busy(old(rows)[name].expires) && rows == old(rows) && held == old(held)
              else
                && rows == old(rows)[name := Row(stored, old(nextNonce))]
                && (lost ==> r == Lost && held == old(held))
                && (!lost ==> r == Got(|old(held)|))
                && (!lost ==> held == old(held) + [Held(name, old(nextNonce), at + lifetime, now, false)])
    {
      var at := now - now % millisecond;
      var expires := at + lifetime;
      if name in rows && rows[name].expires > at {
        return Busy(rows[name].expires);
      }
      Overtaken(at, name, Row(stored, nextNonce));
      rows := rows[name := Row(stored, nextNonce)];
      nextNonce := nextNonce + 1;
      if lost {
        return Lost;
      }
      held := held + [Held(name, nextNonce - 1, expires, now, false)];
      return Got(|held| - 1);
    }

    lemma Overtaken(at: int, name: N, row: Row)
      requires Valid() && at <= clock && (name in rows ==> rows[name].expires <= at)
      ensures Kept(rows[name := row], held, slack, clock)
    {
      forall i | 0 <= i < |held|
        ensures Fine(rows[name := row], held[i], slack, clock)
      {
        assert Fine(rows, held[i], slack, clock);
      }
    }

    // A client renews with a time no earlier than the one it used before. The
    // statement may not be executed, or its answer may get lost.
    method TryRenew(id: nat, now: int, stored: int, executed: bool, lost: bool) returns (ok: bool)
      requires Valid() && id < |held| && held[id].asOf <= now <= clock && stored >= now + lifetime - slack
      modifies `rows, `held
      ensures Valid()
      ensures var h := old(held)[id];
              var mine := h.name in old(rows) && old(rows)[h.name].nonce == h.nonce;
              && ok == (executed && !lost && mine)
              && rows == (if executed && mine then old(rows)[h.name := Row(stored, h.nonce)] else old(rows))
              && held == if ok then old(held)[id := h.(expires := now + lifetime, asOf := now)] else old(held)
    {
      var h := held[id];
      if !executed || h.name !in rows || rows[h.name].nonce != h.nonce {
        return false;
      }
      RenewKeeps(id, Row(stored, h.nonce));
      rows := rows[h.name := Row(stored, h.nonce)];
      if lost {
        return false;
      }
      held := held[id := h.(expires := now + lifetime, asOf := now)];
      return true;
    }

    lemma RenewKeeps(id: nat, row: Row)
      requires Valid() && id < |held| && held[id].name in rows
      requires rows[held[id].name].nonce == held[id].nonce == row.nonce
      requires row.expires >= held[id].expires - slack
      ensures Kept(rows[held[id].name := row], held, slack, clock)
    {
      forall i | 0 <= i < |held|
        ensures Fine(rows[held[id].name := row], held[i], slack, clock)
      {
        assert Fine(rows, held[i], slack, clock);
      }
    }

    // The client gives its lease up before the row is deleted.
    method TryRelease(id: nat) returns (ok: bool)
      requires Valid() && id < |held|
      modifies `rows, `held
      ensures Valid()
      ensures var h := old(held)[id];
              && ok == (h.name in old(rows) && old(rows)[h.name].nonce == h.nonce)
              && rows == (if ok then old(rows) - {h.name} else old(rows))
              && held == old(held)[id := h.(released := true)]
    {
      var h := held[id];
      ok := h.name in rows && rows[h.name].nonce == h.nonce;
      ReleaseKeeps(id);
      if ok {
        rows := rows - {h.name};
      }
      held := held[id := h.(released := true)];
    }

    lemma ReleaseKeeps(id: nat)
      requires Valid() && id < |held|
      ensures var h := held[id];
              var mine := h.name in rows && rows[h.name].nonce == h.nonce;
              Kept(if mine then rows - {h.name} else rows, held[id := h.(released := true)], slack, clock)
    {
      var h := held[id];
      var mine := h.name in rows && rows[h.name].nonce == h.nonce;
      var rows', held' := if mine then rows - {h.name} else rows, held[id := h.(released := true)];
      forall i | 0 <= i < |held|
        ensures Fine(rows', held'[i], slack, clock)
      {
        assert Fine(rows, held[i], slack, clock);
      }
    }

    predicate Enabled(e: Event<N>)
      reads this
    {
      millisecond > 0 &&
      match e
      case Tick(_) => true
      case Acquire(_, now, stored, _) => now <= clock && stored >= now - now % millisecond + lifetime - slack
      case Renew(id, now, stored, _, _) =>
        id < |held| && held[id].asOf <= now <= clock && stored >= now + lifetime - slack
      case Release(id) => id < |held|
    }

    // Any interleaving of the clients.
    method Run(schedule: seq<Event<N>>)
      requires Valid()
      modifies this
      ensures Valid()
    {
      for i := 0 to |schedule|
        invariant Valid()
      {
        if Enabled(schedule[i]) {
          match schedule[i] {
            case Tick(d) => Tick(d);
            case Acquire(name, now, stored, lost) => var r := TryAcquire(name, now, stored, lost);
            case Renew(id, now, stored, executed, lost) => var ok := TryRenew(id, now, stored, executed, lost);
            case Release(id) => var ok := TryRelease(id);
          }
        }
      }
    }

    predicate Live(id: nat)
      reads this
      requires id < |held|
    {
      !held[id].released && held[id].expires > clock + slack
    }

    // A lease that its client still relies on is the one in the table.
    lemma LiveOwnsRow(id: nat)
      requires Valid() && id < |held| && Live(id)
      ensures Owns(rows, held[id], slack) && rows[held[id].name].expires > clock
    {
      assert Fine(rows, held[id], slack, clock);
    }

    // Two clients never rely on the same name.
    lemma Exclusion(a: nat, b: nat)
      requires Valid() && a < |held| && b < |held| && Live(a) && Live(b) && held[a].name == held[b].name
      ensures a == b
    {
      LiveOwnsRow(a);
      LiveOwnsRow(b);
    }

    // While a lease is live, nobody else acquires its name.
    lemma LiveBlocks(id: nat, now: int)
      requires Valid() && id < |held| && Live(id) && now <= clock
      ensures held[id].name in rows && rows[held[id].name].expires > now - now % millisecond
    {
      LiveOwnsRow(id);
    }
  }

  // Whatever the slack, as long as there is any, two clients can hold unexpired
  // leases on one name for that long after a renewal.
  method OverlapWithinSlack<N(==,!new)>(name: N, lifetime: nat, slack: nat) returns (l: Leases<N>)
    requires 0 < slack <= lifetime
    ensures l.Valid() && l.slack == slack && |l.held| == 2
    ensures forall i | 0 <= i < 2 :: l.held[i].name == name && !l.held[i].released && l.held[i].expires > l.clock
  {
    l := new Leases(lifetime, slack, 1);
    var first := l.TryAcquire(name, 0, lifetime, false);
    var renewed := l.TryRenew(0, 0, lifetime - slack, true, false);
    l.Tick(lifetime - slack);
    var second := l.TryAcquire(name, lifetime - slack, 2 * lifetime - slack, false);
  }
}
