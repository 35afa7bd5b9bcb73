/** A reader of the log topic: it drops what it has seen and stops the process at a gap
    (matching/kafka_log_reader.go, `Run`). */
module LogReader {
  import opened Exchange
  import opened Runs

  datatype Verdict = Discard | Deliver | Fatal

  function Judge(lastSeq: nat, sequence: nat): Verdict {
    if sequence <= lastSeq then Discard
    else if lastSeq > 0 && sequence != lastSeq + 1 then Fatal
    else Deliver
  }

  /** What the observer was given, the last sequence number seen, and whether the reader stopped. */
  datatype Read = Read(delivered: seq<Log>, lastSeq: nat, fatal: bool)

  function ReadAll(lastSeq: nat, topic: seq<Log>): Read
    decreases |topic|
  {
    if topic == [] then Read([], lastSeq, false)
    else
      var r := ReadAll(lastSeq, topic[..|topic| - 1]);
      var log := topic[|topic| - 1];
      if r.fatal then r
      else match Judge(r.lastSeq, log.sequence)
        case Discard => r
        case Fatal => r.(fatal := true)
        case Deliver => Read(r.delivered + [log], log.sequence, false)
  }

  /** The largest sequence number of a topic, from `start` on. */
  function MaxSeq(start: nat, topic: seq<Log>): (m: nat)
    ensures m >= start
    decreases |topic|
  {
    if topic == [] then start
    else
      var m := MaxSeq(start, topic[..|topic| - 1]);
      var n := topic[|topic| - 1].sequence;
      if n > m then n else m
  }

  ghost predicate InStep(topic: seq<Log>, full: seq<Log>, start: nat, i: nat)
    requires i < |topic|
  {
    var n := topic[i].sequence;
    1 <= n <= |full| && topic[i] == full[n - 1] && n <= MaxSeq(start, topic[..i]) + 1
  }

  /** The topic repeats stretches of one numbered log but never skips ahead in it. */
  ghost predicate Continuous(topic: seq<Log>, full: seq<Log>, start: nat) {
    forall i :: 0 <= i < |topic| ==> InStep(topic, full, start, i)
  }

  lemma ContinuousPrefix(start: nat, topic: seq<Log>, full: seq<Log>)
    requires topic != [] && Continuous(topic, full, start)
    ensures Continuous(topic[..|topic| - 1], full, start)
    ensures var log := topic[|topic| - 1];
            1 <= log.sequence <= |full| && log == full[log.sequence - 1]
            && log.sequence <= MaxSeq(start, topic[..|topic| - 1]) + 1
  {
    var n := |topic| - 1;
    assert InStep(topic, full, start, n);
    forall i | 0 <= i < n
      ensures InStep(topic[..n], full, start, i)
    {
      assert InStep(topic, full, start, i);
      assert topic[..n][..i] == topic[..i];
    }
  }

  lemma ContinuousSnoc(start: nat, topic: seq<Log>, full: seq<Log>, log: Log)
    requires Continuous(topic, full, start) && 1 <= log.sequence <= |full| && log == full[log.sequence - 1]
    requires log.sequence <= MaxSeq(start, topic) + 1
    ensures Continuous(topic + [log], full, start)
    ensures MaxSeq(start, topic + [log]) == if log.sequence > MaxSeq(start, topic) then log.sequence else MaxSeq(start, topic)
  {
    var t := topic + [log];
    assert t[..|topic|] == topic;
    forall i | 0 <= i < |t|
      ensures InStep(t, full, start, i)
    {
      if i < |topic| {
        assert InStep(topic, full, start, i);
        assert t[..i] == topic[..i];
      }
    }
  }

  /** A reader that has seen the first `start` logs is delivered exactly the logs that follow, each
      once and in order, up to the furthest the topic reaches; it never meets a gap. */
  lemma {:induction false} ReaderDeliversOnce(start: nat, topic: seq<Log>, full: seq<Log>)
    requires start <= |full| && Continuous(topic, full, start)
    ensures MaxSeq(start, topic) <= |full|
    ensures ReadAll(start, topic) == Read(full[start..MaxSeq(start, topic)], MaxSeq(start, topic), false)
    decreases |topic|
  {
    hide Continuous;
    if topic != [] {
      var n := |topic| - 1;
      ContinuousPrefix(start, topic, full);
      ReaderDeliversOnce(start, topic[..n], full);
      var m := MaxSeq(start, topic[..n]);
      if topic[n].sequence == m + 1 {
        assert full[start..m + 1] == full[start..m] + [full[m]];
      }
    }
  }

  /** Reading a topic in two sittings, the second from where the first stopped. */
  lemma {:induction false} ReadSplits(start: nat, a: seq<Log>, c: seq<Log>)
    ensures var r := ReadAll(start, a);
            var r' := ReadAll(r.lastSeq, c);
            ReadAll(start, a + c) == if r.fatal then r else r'.(delivered := r.delivered + r'.delivered)
    decreases |c|
  {
    if c == [] {
      assert a + c == a;
    } else {
      assert (a + c)[..|a + c| - 1] == a + c[..|c| - 1];
      ReadSplits(start, a, c[..|c| - 1]);
    }
  }

  lemma MaxAppend(start: nat, a: seq<Log>, c: seq<Log>)
    ensures MaxSeq(start, a + c) == MaxSeq(MaxSeq(start, a), c)
    decreases |c|
  {
    if c == [] {
      assert a + c == a;
    } else {
      assert (a + c)[..|a + c| - 1] == a + c[..|c| - 1];
      MaxAppend(start, a, c[..|c| - 1]);
    }
  }

  /** Appending a stretch of the full log that starts no further than one past the furthest log
      so far. */
  lemma {:induction false} AppendStretch(start: nat, topic: seq<Log>, full: seq<Log>, from: nat, upTo: nat)
    requires Numbered(full, 0) && Continuous(topic, full, start) && from <= upTo <= |full|
    requires from <= MaxSeq(start, topic)
    ensures Continuous(topic + full[from..upTo], full, start)
    ensures MaxSeq(start, topic + full[from..upTo])
            == if upTo > MaxSeq(start, topic) then upTo else MaxSeq(start, topic)
    decreases upTo - from
  {
    hide Continuous;
    if from == upTo {
      assert topic + full[from..upTo] == topic;
    } else {
      AppendStretch(start, topic, full, from, upTo - 1);
      assert topic + full[from..upTo] == (topic + full[from..upTo - 1]) + [full[upTo - 1]];
      ContinuousSnoc(start, topic + full[from..upTo - 1], full, full[upTo - 1]);
    }
  }

  class KafkaLogReader {
    var lastSeq: nat

    constructor (sequence: nat)
      ensures lastSeq == sequence
    {
      lastSeq := sequence;
    }

    /** One message of the topic. */
    method OnMessage(sequence: nat) returns (v: Verdict)
      modifies this
      ensures v == Judge(old(lastSeq), sequence)
      ensures lastSeq == if v.Deliver? then sequence else old(lastSeq)
    {
      if sequence <= lastSeq {
        return Discard;
      } else if lastSeq > 0 && sequence != lastSeq + 1 {
        return Fatal;
      }
      lastSeq := sequence;
      return Deliver;
    }
  }
}
