/**
 Greylisting (email/plugins/greylist.js): a sender is put off until it comes back inside a time window. The
 records live in a store that forgets a key when its time is up, which may fall between the look-up and
 the update of one call.
 */
module Greylist {
  import opened Options

  type Key = string

  /** A grey record; `created` is missing when the record was made by an update of one just forgotten, and
      then so are its lifetime and its expiry. */
  datatype Record = Record(created: Option<int>, lifetime: int, tried: nat, expires: Option<real>)

  /** Math.round. */
  function Round(t: real): int {
    (t + 0.5).Floor
  }

  predicate Alive(r: Record, now: real) {
    r.expires.None? || now < r.expires.value
  }

  /** The record says that the sender waited long enough, and not too long. */
  predicate InWindow(created: int, black: int, lifetime: int, now: real) {
    (created + black) as real < now <= (created + lifetime) as real
  }

  datatype Outcome = PutOff | Promoted

  class Greylist {
    const black: int                       // cfg.period.black
    const grey: int                        // cfg.period.grey
    var db: map<Key, Record>
    ghost var sightings: map<Key, seq<real>>   // when a record for the key was made

    ghost function SeenAt(key: Key): seq<real>
      reads this
    {
      if key in sightings then sightings[key] else []
    }

    /** A record with a creation time was made at an earlier sighting of its key. */
    ghost predicate Valid()
      reads this
    {
      forall key :: key in db ==>
        if db[key].created.Some? then
          db[key].lifetime == grey && FromSighting(SeenAt(key), db[key].created.value)
        else db[key].expires.None?
    }

    constructor (black: int, grey: int)
      ensures Valid() && db == map[] && sightings == map[] && this.black == black && this.grey == grey
    {
      this.black, this.grey, db, sightings := black, grey, map[], map[];
    }

    /** process_tuple: the look-up happens at `now`, the update, if any, at `later`. */
    method ProcessTuple(key: Key, now: real, later: real) returns (outcome: Outcome)
      requires Valid() && now <= later
      modifies this
      ensures Valid()
      ensures outcome == Promoted <==>
                key in old(db) && Alive(old(db)[key], now) && old(db)[key].created.Some?
                && InWindow(old(db)[key].created.value, black, old(db)[key].lifetime, now)
      ensures outcome == Promoted ==>
                db == old(db) && sightings == old(sightings) && SomeInWindow(SeenAt(key), black, grey, now)
      ensures forall k :: k != key ==> (k in db <==> k in old(db)) && (k in db ==> db[k] == old(db)[k])
      ensures outcome == PutOff && !(key in old(db) && Alive(old(db)[key], now)) ==>
                key in db && db[key] == Record(Some(Round(later)), grey, 1, Some(later + grey as real))
      ensures outcome == PutOff && key in old(db) && Alive(old(db)[key], now) ==>
                key in db && db[key] ==
                  if Alive(old(db)[key], later) then old(db)[key].(tried := old(db)[key].tried + 1)
                                        else Record(None, 0, 1, None)
    {
      if key in db && Alive(db[key], now) {
        var record := db[key];
        if record.created.Some? && (record.created.value + black) as real < now
           && (record.created.value + record.lifetime) as real >= now {
          InWindowOfSighting(SeenAt(key), record.created.value, black, grey, now);
          return Promoted;
        }
        // hincrby and hmset without an expiry: on a key just forgotten they make a new one.
        if Alive(record, later) {
          db := db[key := record.(tried := record.tried + 1)];
        } else {
          db := db[key := Record(None, 0, 1, None)];
        }
      } else {
        sightings := sightings[key := SeenAt(key) + [later]];
        LastSighting(SeenAt(key), later);
        KeepsSightings(old(SeenAt(key)), later);
        db := db[key := Record(Some(Round(later)), grey, 1, Some(later + grey as real))];
      }
      outcome := PutOff;
    }
  }

  ghost predicate FromSighting(times: seq<real>, created: int) {
    exists i :: 0 <= i < |times| && Round(times[i]) == created
  }

  ghost predicate SomeInWindow(times: seq<real>, black: int, grey: int, now: real) {
    exists i :: 0 <= i < |times| && InWindow(Round(times[i]), black, grey, now)
  }

  lemma InWindowOfSighting(times: seq<real>, created: int, black: int, grey: int, now: real)
    requires FromSighting(times, created) && InWindow(created, black, grey, now)
    ensures SomeInWindow(times, black, grey, now)
  {
    var i :| 0 <= i < |times| && Round(times[i]) == created;
    assert InWindow(Round(times[i]), black, grey, now);
  }

  lemma LastSighting(times: seq<real>, t: real)
    requires times != [] && times[|times| - 1] == t
    ensures FromSighting(times, Round(t))
  {
  }

  lemma KeepsSightings(times: seq<real>, t: real)
    ensures forall c :: FromSighting(times, c) ==> FromSighting(times + [t], c)
  {
    forall c | FromSighting(times, c) ensures FromSighting(times + [t], c) {
      var i :| 0 <= i < |times| && Round(times[i]) == c;
      assert Round((times + [t])[i]) == c;
    }
  }

  /** A call of process_tuple: its key, and when the look-up and the update happen. */
  datatype Call = Call(key: Key, now: real, later: real)

  /** A key whose record was forgotten between the look-up and the update of one call is put off for ever:
      the new record has no creation time, never expires, and no later call, for this key or another,
      changes that. */
  method PutOffForEver(g: Greylist, key: Key, calls: seq<Call>) returns (outcomes: seq<Outcome>)
    requires g.Valid() && key in g.db && g.db[key].created.None?
    requires forall i :: 0 <= i < |calls| ==> calls[i].now <= calls[i].later
    modifies g
    ensures g.Valid() && key in g.db && g.db[key].created.None? && g.db[key].expires.None?
    ensures |outcomes| == |calls| && forall i :: 0 <= i < |calls| && calls[i].key == key ==> outcomes[i] == PutOff
  {
    outcomes := [];
    var i := 0;
    while i < |calls|
      invariant i <= |calls| && g.Valid() && key in g.db && g.db[key].created.None?
      invariant |outcomes| == i && forall k :: 0 <= k < i && calls[k].key == key ==> outcomes[k] == PutOff
    {
      var outcome := g.ProcessTuple(calls[i].key, calls[i].now, calls[i].later);
      outcomes := outcomes + [outcome];
      i := i + 1;
    }
  }
}
