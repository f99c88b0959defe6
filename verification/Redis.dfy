/**
 The three Redis commands the store issues (pkg/persistence/redis/store.go), each one
 atomic and each on one key. Time is in milliseconds.
 */
module Redis {
  import opened Harbor
  import opened Wrappers

  /** What a key holds; Malformed stands for bytes that are not the JSON of a job. */
  datatype Document = Json(job: JobJson) | Malformed

  datatype Entry = Entry(document: Document, expiresAt: nat)

  /** NX applies only to an absent key, XX only to a present one; both set a fresh expiry. */
  datatype Command = Get | SetNX(document: Document) | SetXX(document: Document)

  /** Nil answers a Get of an absent key and a SET whose condition does not hold. */
  datatype Reply = Value(document: Document) | Nil | Okay | Error(message: string)

  /** How one command fares: a failed SET may (Unheard) or may not (Refused) have been applied. */
  datatype Fate = Delivered | Refused(message: string) | Unheard(message: string)

  const INVALID_EXPIRE := "ERR invalid expire time in 'set' command"

  const NANOS_PER_SECOND := 1_000_000_000

  /** The EX argument: whole seconds, truncated towards zero. */
  function ExpirySeconds(ttlNanos: int): int {
    if ttlNanos >= 0 then ttlNanos / NANOS_PER_SECOND else -(-ttlNanos / NANOS_PER_SECOND)
  }

  /** The expiry in milliseconds of a SET that Redis accepts. */
  function TtlMillis(ttlNanos: int): nat {
    if ExpirySeconds(ttlNanos) > 0 then 1000 * ExpirySeconds(ttlNanos) else 0
  }

  /** An entry is readable up to and including the millisecond it expires at. */
  predicate Live(e: Option<Entry>, now: nat) {
    e.Some? && now <= e.value.expiresAt
  }

  /** Whether a SET changes its key: its condition holds, its expiry is positive and it reaches the server. */
  predicate Applies(e: Option<Entry>, now: nat, ttlNanos: int, command: Command, fate: Fate) {
    && !fate.Refused?
    && ExpirySeconds(ttlNanos) > 0
    && ((command.SetNX? && !Live(e, now)) || (command.SetXX? && Live(e, now)))
  }

  /** The key after one command, and the reply its caller sees. */
  function Serve(e: Option<Entry>, now: nat, ttlNanos: int, command: Command, fate: Fate): (Option<Entry>, Reply) {
    var after :=
      if Applies(e, now, ttlNanos, command, fate)
      then Some(Entry(command.document, now + TtlMillis(ttlNanos)))
      else e;
    var reply :=
      if !fate.Delivered? then Error(fate.message)
      else if command.Get? then
        if Live(e, now) then Value(e.value.document) else Nil
      else if ExpirySeconds(ttlNanos) <= 0 then Error(INVALID_EXPIRE)
      else if after == e && !Applies(e, now, ttlNanos, command, fate) then Nil
      else Okay;
    (after, reply)
  }

  function JobKey(namespace: string, jobID: string): string {
    namespace + ":scan-job:" + jobID
  }

  /** Different jobs never share a key. */
  lemma JobKeyInjective(namespace: string, a: string, b: string)
    ensures JobKey(namespace, a) == JobKey(namespace, b) <==> a == b
  {
    var prefix := namespace + ":scan-job:";
    assert JobKey(namespace, a)[|prefix|..] == a && JobKey(namespace, b)[|prefix|..] == b;
  }

  /** The expiry is the whole seconds of the configured time, which is in nanoseconds; shorter times are no expiry. */
  lemma ExpiryIsInSeconds(ttlNanos: int, seconds: int)
    requires seconds >= 0
    ensures seconds * 1_000_000_000 <= ttlNanos < (seconds + 1) * 1_000_000_000 ==>
      ExpirySeconds(ttlNanos) == seconds && TtlMillis(ttlNanos) == 1000 * seconds
    ensures ttlNanos < 1_000_000_000 ==> ExpirySeconds(ttlNanos) <= 0 && TtlMillis(ttlNanos) == 0
  {
  }

  /** What a SET that is delivered leaves is read from then on, until its expiry has passed and no longer. */
  lemma SetThenGet(e: Option<Entry>, now: nat, ttlNanos: int, document: Document, elapsed: nat)
    requires ttlNanos >= 1_000_000_000
    ensures var (created, reply) := Serve(e, now, ttlNanos, SetNX(document), Delivered);
            if Live(e, now) then created == e && reply == Nil
            else
              && reply == Okay
              && Serve(created, now + elapsed, ttlNanos, Get, Delivered) ==
                   (created, if elapsed <= 1000 * (ttlNanos / 1_000_000_000) then Value(document) else Nil)
    ensures var (updated, reply) := Serve(e, now, ttlNanos, SetXX(document), Delivered);
            if !Live(e, now) then updated == e && reply == Nil
            else
              && reply == Okay
              && Serve(updated, now + elapsed, ttlNanos, Get, Delivered) ==
                   (updated, if elapsed <= 1000 * (ttlNanos / 1_000_000_000) then Value(document) else Nil)
  {
  }

  /** A command that fails says so, and leaves either what was there or what it would have left had it been delivered. */
  lemma FailedCommands(e: Option<Entry>, now: nat, ttlNanos: int, command: Command, message: string)
    ensures Serve(e, now, ttlNanos, command, Refused(message)) == (e, Error(message))
    ensures Serve(e, now, ttlNanos, command, Unheard(message)) ==
      (Serve(e, now, ttlNanos, command, Delivered).0, Error(message))
    ensures Serve(e, now, ttlNanos, Get, Unheard(message)).0 == e
    ensures !command.Get? && ttlNanos < 1_000_000_000 ==>
      Serve(e, now, ttlNanos, command, Delivered) == (e, Error("ERR invalid expire time in 'set' command"))
  {
  }
}
