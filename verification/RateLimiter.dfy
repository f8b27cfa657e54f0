/**
  internal/demo/ratelimit.go: a sliding-window log per client address, compacted
  in place on every attempt, against the full history of attempts.
 */
module RateLimiter {
  type Time = int

  /** A client address, known only by its identity. */
  datatype Address = Address(id: nat)

  /** The attempts after the cutoff, in order. */
  function Recent(log: seq<Time>, cutoff: Time): seq<Time> {
    if log == [] then []
    else
      var rest, last := Recent(log[..|log| - 1], cutoff), log[|log| - 1];
      if last > cutoff then rest + [last] else rest
  }

  /** The rule: earlier attempts of the last window and this one number at most max. */
  predicate Permits(earlier: seq<Time>, now: Time, window: Time, max: int) {
    |Recent(earlier, now - window)| + 1 <= max
  }

  ghost function After(log: seq<Time>, cutoff: Time): set<nat> {
    set k: nat | k < |log| && log[k] > cutoff
  }

  /** As many are recent as there are entries after the cutoff. */
  lemma {:induction false} RecentIsAfter(log: seq<Time>, cutoff: Time)
    ensures |Recent(log, cutoff)| == |After(log, cutoff)|
  {
    if log == [] {
      assert After(log, cutoff) == {};
    } else {
      var n := |log| - 1;
      RecentIsAfter(log[..n], cutoff);
      assert After(log, cutoff) == After(log[..n], cutoff) + if log[n] > cutoff then {n} else {};
    }
  }

  lemma RecentOneMore(log: seq<Time>, t: Time, cutoff: Time)
    ensures Recent(log + [t], cutoff) == Recent(log, cutoff) + if t > cutoff then [t] else []
  {
    assert (log + [t])[..|log|] == log;
  }

  lemma {:induction false} FilterTwice(log: seq<Time>, early: Time, late: Time)
    requires early <= late
    ensures Recent(Recent(log, early), late) == Recent(log, late)
  {
    if log != [] {
      var rest, last := log[..|log| - 1], log[|log| - 1];
      FilterTwice(rest, early, late);
      if last > early {
        RecentOneMore(Recent(rest, early), last, late);
      }
    }
  }

  /** The log answers every question that can still be asked as the full history would. */
  ghost predicate SameFrom(log: seq<Time>, history: seq<Time>, from: Time) {
    forall cutoff :: from <= cutoff ==> SameAt(log, history, cutoff)
  }

  ghost predicate SameAt(log: seq<Time>, history: seq<Time>, cutoff: Time) {
    Recent(log, cutoff) == Recent(history, cutoff)
  }

  /** Nothing the limiter drops can ever count again, as long as the clock does not go back. */
  lemma DroppedForGood(log: seq<Time>, history: seq<Time>, from: Time, cutoff: Time, now: Time)
    requires SameFrom(log, history, from) && from <= cutoff
    ensures SameFrom(Recent(log, cutoff) + [now], history + [now], cutoff)
  {
    forall c | cutoff <= c ensures SameAt(Recent(log, cutoff) + [now], history + [now], c) {
      assert SameAt(log, history, c);
      FilterTwice(log, cutoff, c);
      RecentOneMore(Recent(log, cutoff), now, c);
      RecentOneMore(history, now, c);
    }
  }

  // --- The limiter ----------------------------------------------------------------------

  /** A slice over a buffer of its own. */
  datatype Slice = Slice(buffer: array<Time>, len: nat)

  ghost predicate Holds(s: Slice, log: seq<Time>)
    reads s.buffer
  {
    s.len <= s.buffer.Length && s.buffer[..s.len] == log
  }

  /** The attempts made by an address. */
  ghost function Attempts(history: map<Address, seq<Time>>, ip: Address): seq<Time> {
    if ip in history then history[ip] else []
  }

  ghost predicate Agree(logs: map<Address, seq<Time>>, history: map<Address, seq<Time>>, from: Time) {
    && logs.Keys == history.Keys
    && forall ip :: ip in logs ==> SameFrom(logs[ip], history[ip], from)
  }

  /** The logs after an attempt: the address's recent ones and this one. */
  lemma AgreeAfter(logs: map<Address, seq<Time>>, history: map<Address, seq<Time>>, from: Time, ip: Address,
                   now: Time, window: Time, max: int)
    returns (recent: seq<Time>, logs': map<Address, seq<Time>>)
    requires Agree(logs, history, from) && from <= now - window
    ensures recent == Recent(Attempts(logs, ip), now - window) && logs' == logs[ip := recent + [now]]
    ensures |recent| + 1 <= max <==> Permits(Attempts(history, ip), now, window, max)
    ensures Agree(logs', history[ip := Attempts(history, ip) + [now]], now - window)
  {
    var cutoff := now - window;
    var log, past := Attempts(logs, ip), Attempts(history, ip);
    assert SameFrom(log, past, from) && SameAt(log, past, cutoff);
    DroppedForGood(log, past, from, cutoff, now);
    recent := Recent(log, cutoff);
    logs' := logs[ip := recent + [now]];
  }

  class IPRateLimiter {
    const max: int
    const window: Time
    var seen: map<Address, Slice>
    ghost var logs: map<Address, seq<Time>>

    ghost function Buffers(): set<array<Time>>
      reads this`seen
    {
      set ip | ip in seen :: seen[ip].buffer
    }

    ghost function Buffer(ip: Address): set<array<Time>>
      reads this`seen
    {
      if ip in seen then {seen[ip].buffer} else {}
    }

    /** Every address has a buffer of its own, holding its log. */
    ghost predicate Stored()
      reads this`seen, this`logs, Buffers()
    {
      && seen.Keys == logs.Keys
      && (forall p, q :: p in seen && q in seen && p != q ==> seen[p].buffer != seen[q].buffer)
      && forall ip :: ip in seen ==>
           Holds(seen[ip], logs[ip])
    }

    /** The limiter agrees with the history of every attempt made by any address up to now, denied ones included. */
    ghost predicate Valid(history: map<Address, seq<Time>>, now: Time)
      reads this`seen, this`logs, Buffers()
    {
      Stored() && Agree(logs, history, now - window)
    }

    constructor (max: int, window: Time)
      ensures this.max == max && this.window == window
      ensures forall start: Time :: Valid(map[], start)
    {
      this.max, this.window := max, window;
      seen, logs := map[], map[];
    }

    /**
      Allowed exactly when the attempts made by this address in the last window,
      this one and denied ones included, number at most max.
     */
    method Allow(ip: Address, now: Time, ghost history: map<Address, seq<Time>>, ghost last: Time) returns (allowed: bool)
      requires Valid(history, last) && last <= now
      modifies this`seen, this`logs, Buffer(ip)
      ensures Valid(history[ip := Attempts(history, ip) + [now]], now)
      ensures ip in seen && seen == old(seen)[ip := seen[ip]]
      ensures fresh(seen[ip].buffer) || (ip in old(seen) && seen[ip].buffer == old(seen)[ip].buffer)
      ensures allowed <==> Permits(Attempts(history, ip), now, window, max)
      ensures allowed <==> |After(Attempts(history, ip), now - window)| + 1 <= max
    {
      RecentIsAfter(Attempts(history, ip), now - window);
      ghost var recent, logs' := AgreeAfter(logs, history, last - window, ip, now, window, max);
      var length := Update(ip, now, now - window, recent);
      assert logs == logs';
      allowed := length <= max;
    }

    /** The address's log without what is too old, and with this attempt. */
    method Update(ip: Address, now: Time, cutoff: Time, ghost recent: seq<Time>) returns (length: nat)
      requires Stored() && recent == Recent(Attempts(logs, ip), cutoff)
      modifies this`seen, this`logs, Buffer(ip)
      ensures Stored()
      ensures ip in seen && seen == old(seen)[ip := seen[ip]]
      ensures fresh(seen[ip].buffer) || (ip in old(seen) && seen[ip].buffer == old(seen)[ip].buffer)
      ensures logs == old(logs)[ip := recent + [now]] && length == |recent| + 1
    {
      var slice := Fetch(ip);
      slice := Record(slice, now, cutoff, Attempts(logs, ip));
      seen := seen[ip := slice];
      logs := logs[ip := recent + [now]];
      length := slice.len;
    }

    /** The address's log; a new, empty one the first time. */
    method Fetch(ip: Address) returns (slice: Slice)
      requires Stored()
      ensures Holds(slice, Attempts(logs, ip))
      ensures if ip in seen then slice == seen[ip] else fresh(slice.buffer)
    {
      if ip in seen {
        slice := seen[ip];
      } else {
        var empty := new Time[0];
        slice := Slice(empty, 0);
      }
    }
  }

  /** Filter, then append this attempt. */
  method Record(s: Slice, now: Time, cutoff: Time, ghost log: seq<Time>) returns (s': Slice)
    requires Holds(s, log)
    modifies s.buffer
    ensures s'.buffer == s.buffer || fresh(s'.buffer)
    ensures Holds(s', Recent(log, cutoff) + [now])
    ensures s'.len == |Recent(log, cutoff)| + 1
  {
    var kept := Compact(s.buffer, s.len, cutoff);
    s' := Append(s.buffer, kept, now);
  }

  /** The filtering loop: what is kept trails what is read, so no entry is overwritten before it is read. */
  method Compact(buffer: array<Time>, len: nat, cutoff: Time) returns (kept: nat)
    requires len <= buffer.Length
    modifies buffer
    ensures kept <= len && buffer[..kept] == Recent(old(buffer[..len]), cutoff)
  {
    kept := 0;
    for i := 0 to len
      invariant kept <= i
      invariant buffer[..kept] == Recent(old(buffer[..i]), cutoff)
      invariant forall k :: i <= k < len ==> buffer[k] == old(buffer[k])
    {
      ghost var was := old(buffer[..i]);
      assert old(buffer[..i + 1]) == was + [old(buffer[i])];
      RecentOneMore(was, buffer[i], cutoff);
      if buffer[i] > cutoff {
        buffer[kept] := buffer[i];
        kept := kept + 1;
      }
    }
  }

  /** append: in place while there is room, into a new buffer otherwise. */
  method Append(buffer: array<Time>, len: nat, t: Time) returns (s: Slice)
    requires len <= buffer.Length
    modifies buffer
    ensures s.len == len + 1 && s.len <= s.buffer.Length
    ensures s.buffer == buffer || fresh(s.buffer)
    ensures s.buffer[..s.len] == old(buffer[..len]) + [t]
  {
    if len < buffer.Length {
      buffer[len] := t;
      s := Slice(buffer, len + 1);
    } else {
      var bigger := new Time[2 * len + 1];
      for i := 0 to len
        invariant bigger[..i] == buffer[..i]
        invariant buffer[..] == old(buffer[..])
      {
        bigger[i] := buffer[i];
      }
      bigger[len] := t;
      s := Slice(bigger, len + 1);
    }
  }

  // --- What the rule guarantees ---------------------------------------------------------------

  /** Whether the k-th attempt of an address was allowed. */
  predicate Allowed(history: seq<Time>, k: nat, window: Time, max: int)
    requires k < |history|
  {
    Permits(history[..k], history[k], window, max)
  }

  /** How many of the first n attempts were allowed and fell into [from, from + window). */
  function AllowedWithin(history: seq<Time>, n: nat, from: Time, window: Time, max: int): nat
    requires n <= |history|
  {
    if n == 0 then 0
    else
      AllowedWithin(history, n - 1, from, window, max)
      + if from <= history[n - 1] < from + window && Allowed(history, n - 1, window, max) then 1 else 0
  }

  lemma {:induction false} AllowedAreRecent(history: seq<Time>, n: nat, from: Time, window: Time, max: int, cutoff: Time)
    requires n <= |history| && cutoff < from
    ensures AllowedWithin(history, n, from, window, max) <= |Recent(history[..n], cutoff)|
  {
    if n > 0 {
      AllowedAreRecent(history, n - 1, from, window, max, cutoff);
      assert history[..n] == history[..n - 1] + [history[n - 1]];
      RecentOneMore(history[..n - 1], history[n - 1], cutoff);
    }
  }

  /** No interval as long as the window holds more than max allowed attempts of one address, whatever the clock does. */
  lemma {:induction false} AtMostMaxPerWindow(history: seq<Time>, n: nat, from: Time, window: Time, max: int)
    requires n <= |history|
    ensures AllowedWithin(history, n, from, window, max) <= if max < 0 then 0 else max
  {
    if n > 0 {
      AtMostMaxPerWindow(history, n - 1, from, window, max);
      var t := history[n - 1];
      if from <= t < from + window && Allowed(history, n - 1, window, max) {
        AllowedAreRecent(history, n - 1, from, window, max, t - window);
      }
    }
  }
}
