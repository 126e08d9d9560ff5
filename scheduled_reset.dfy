/**
 * ScheduledReset: an immutable record of a world name, a reset interval and the instant of the next reset.
 * Instants are epoch seconds and durations whole seconds; nanoseconds are not modelled.
 */
module ScheduledResets {
  import opened JavaLang

  /** The three final fields; a datatype value cannot be changed, which is what the final fields promise. */
  datatype ScheduledReset = ScheduledReset(worldName: string, interval: int, nextReset: int)

  /** The three-argument constructor: the next reset is one interval after `from`. */
  function NewReset(interval: int, from: int, worldName: string): (r: ScheduledReset)
    ensures r.worldName == worldName && r.interval == interval
    ensures r.nextReset - r.interval == from
  {
    ScheduledReset(worldName, interval, from + interval)
  }

  /** The two-argument constructor, with the clock reading passed in as `now`. */
  function NewResetNow(interval: int, worldName: string, now: int): (r: ScheduledReset)
    ensures r == NewReset(interval, now, worldName)
    ensures r.nextReset == now + interval
  {
    NewReset(interval, now, worldName)
  }

  /** Different constructor arguments always give different entries. */
  lemma NewResetInjective(i1: int, f1: int, w1: string, i2: int, f2: int, w2: string)
    ensures NewReset(i1, f1, w1) == NewReset(i2, f2, w2) <==> i1 == i2 && f1 == f2 && w1 == w2
  {
    assert NewReset(i1, f1, w1).nextReset - i1 == f1;
    assert NewReset(i2, f2, w2).nextReset - i2 == f2;
  }

  /** Duration.between(now, nextReset) in seconds: the time left until the reset, negative once it is overdue. */
  function TimeLeft(r: ScheduledReset, now: int): int {
    r.nextReset - now
  }

  /** auditReset: the reset is overdue when its instant is strictly before now. */
  predicate AuditReset(r: ScheduledReset, now: int) {
    r.nextReset < now
  }

  /** ScheduledReset.equals: the world name compared case-sensitively, the interval and the instant. */
  predicate Equals(a: ScheduledReset, b: ScheduledReset) {
    a.worldName == b.worldName && a.interval == b.interval && a.nextReset == b.nextReset
  }

  /** Duration.hashCode and Instant.hashCode for a whole number of seconds (the nano part is zero). */
  function SecondsHashCode(seconds: int): (h: int)
    ensures INT_MIN <= h <= INT_MAX
  {
    LongHashCode(seconds)
  }

  /** ScheduledReset.hashCode: 31-based combination of the three field hashes in int arithmetic. */
  function HashCode(r: ScheduledReset): (h: int)
    ensures INT_MIN <= h <= INT_MAX
  {
    var result := StringHashCode(r.worldName);
    var result' := ToInt32(31 * result + SecondsHashCode(r.interval));
    ToInt32(31 * result' + SecondsHashCode(r.nextReset))
  }

  /** equals is the value equality of the record, so a set of records is a set under equals. */
  lemma EqualsIsEquality(a: ScheduledReset, b: ScheduledReset)
    ensures Equals(a, b) <==> a == b
  {
  }

  /** hashCode is consistent with equals. */
  lemma HashCodeConsistent(a: ScheduledReset, b: ScheduledReset)
    requires Equals(a, b)
    ensures HashCode(a) == HashCode(b)
  {
  }

  /** Entries whose names differ only in casing are distinct members of a set. */
  lemma CaseSensitiveEquals(interval: int, from: int)
    ensures !Equals(NewReset(interval, from, "World"), NewReset(interval, from, "world"))
  {
    assert "World"[0] != "world"[0];
  }

  /** The hash is not injective: "Aa" and "BB" share a String hash, so two distinct entries can share a hash. */
  lemma HashCollision(interval: int, next: int)
    ensures !Equals(ScheduledReset("Aa", interval, next), ScheduledReset("BB", interval, next))
    ensures HashCode(ScheduledReset("Aa", interval, next)) == HashCode(ScheduledReset("BB", interval, next))
  {
    assert "Aa"[0] != "BB"[0];
    HashOfPair('A', 'a');
    HashOfPair('B', 'B');
  }

  /** An entry made now with a positive interval is not overdue now, and is overdue exactly after its instant. */
  lemma FreshResetNotOverdue(interval: int, worldName: string, now: int, later: int)
    requires interval > 0
    ensures !AuditReset(NewResetNow(interval, worldName, now), now)
    ensures AuditReset(NewResetNow(interval, worldName, now), later) <==> later > now + interval
  {
  }
}
