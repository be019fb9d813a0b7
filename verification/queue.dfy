/** The progress-message queue of the web application: `send_update` and the drain
    the form handler runs before each generation.

    The queue is `queue.Queue(maxsize=100)`, read here as the sequence of waiting
    updates, oldest first. `put_nowait` raises `Full` once 100 updates wait, and
    `send_update` then takes the oldest one out and tries again. The stream that
    consumes the queue, the clock and the other threads are not modelled: every
    transition below runs alone. */
module ProgressQueue {
  import opened CharClasses
  import opened JobDetails

  /** `MESSAGE_QUEUE_MAX_SIZE` */
  const Capacity: nat := 100

  /** The dictionary `send_update` puts on the queue; `timestamp` is the
      `datetime.now().isoformat()` text, handed in by the caller. */
  datatype Update = Update(message: string, category: string, timestamp: string)

  predicate Bounded(q: seq<Update>) {
    |q| <= Capacity
  }

  /** `send_update(message, category)` */
  function SendUpdate(q: seq<Update>, u: Update): (r: seq<Update>)
    ensures |r| > 0 && r[|r| - 1] == u
    ensures Bounded(q) ==> Bounded(r)
    ensures |q| < Capacity ==> |r| == |q| + 1 && r[..|q|] == q
    ensures |q| >= Capacity ==> |r| == |q| && r[..|r| - 1] == q[1..]
  {
    if |q| < Capacity then q + [u] else q[1..] + [u]
  }

  /** The reference behaviour: the newest `Capacity` entries of everything sent. */
  function Window(s: seq<Update>): (r: seq<Update>)
    ensures Bounded(r)
  {
    if |s| <= Capacity then s else s[|s| - Capacity..]
  }

  /** `send_update` called once for each of `us`, in order. */
  function SendAll(q: seq<Update>, us: seq<Update>): seq<Update>
    decreases |us|
  {
    if |us| == 0 then q else SendAll(SendUpdate(q, us[0]), us[1..])
  }

  lemma WindowAbsorb(s: seq<Update>, t: seq<Update>)
    ensures Window(Window(s) + t) == Window(s + t)
  {
    if |s| > Capacity {
      var w := s[|s| - Capacity..];
      assert |w + t| >= Capacity;
      assert (w + t)[|w + t| - Capacity..] == (s + t)[|s + t| - Capacity..];
    }
  }

  lemma SendUpdateIsWindow(q: seq<Update>, u: Update)
    requires Bounded(q)
    ensures SendUpdate(q, u) == Window(q + [u])
  {
    if |q| == Capacity {
      assert (q + [u])[1..] == q[1..] + [u];
    }
  }

  /** From a queue within bounds, any run of updates leaves exactly the newest 100
      of old and new entries together, in the order they were sent. */
  lemma {:induction false} SendAllIsWindow(q: seq<Update>, us: seq<Update>)
    requires Bounded(q)
    ensures SendAll(q, us) == Window(q + us)
    decreases |us|
  {
    if |us| == 0 {
      assert q + us == q;
    } else {
      var q' := SendUpdate(q, us[0]);
      SendUpdateIsWindow(q, us[0]);
      SendAllIsWindow(q', us[1..]);
      WindowAbsorb(q + [us[0]], us[1..]);
      assert q + [us[0]] + us[1..] == q + us;
    }
  }

  /** The queue never holds more than 100 updates. */
  lemma SendAllBounded(q: seq<Update>, us: seq<Update>)
    requires Bounded(q)
    ensures Bounded(SendAll(q, us))
  {
    SendAllIsWindow(q, us);
  }

  /** `while not queue.empty(): queue.get_nowait()`: every waiting update is taken,
      oldest first. */
  method Drain(q: seq<Update>) returns (remaining: seq<Update>, taken: seq<Update>)
    ensures remaining == []
    ensures taken == q
  {
    remaining, taken := q, [];
    while |remaining| > 0
      invariant taken + remaining == q
      decreases |remaining|
    {
      taken, remaining := taken + [remaining[0]], remaining[1..];
    }
  }

  const Received: string := "Form submission received, starting processing..."
  const Sending: string := "Sending data to AI for processing..."
  const Starting: string := "Starting document generation..."

  /** The queue side of the form handler, up to the call into the generator:
      announce, validate, announce again, drain, announce the start. `stamps`
      gives the three updates' timestamps. */
  method SubmitForm(q: seq<Update>, cls: Classes, form: FormInput,
                    stamps: (string, string, string))
    returns (accepted: bool, r: seq<Update>)
    requires Bounded(q)
    ensures accepted == FormValid(cls, form)
    ensures Bounded(r)
    ensures !accepted ==> r == SendUpdate(q, Update(Received, "info", stamps.0))
    ensures accepted ==> r == [Update(Starting, "info", stamps.2)]
  {
    r := SendUpdate(q, Update(Received, "info", stamps.0));
    accepted := FormValid(cls, form);
    if !accepted {
      return;
    }
    r := SendUpdate(r, Update(Sending, "info", stamps.1));
    var taken;
    r, taken := Drain(r);
    r := SendUpdate(r, Update(Starting, "info", stamps.2));
  }

  /** The two announcements made before the drain are among the updates it throws
      away, so for a valid form no stream reader that is not already waiting sees
      them. */
  method SubmitFormDiscardsAnnouncements(q: seq<Update>, cls: Classes, form: FormInput,
                                         stamps: (string, string, string))
    returns (discarded: seq<Update>)
    requires Bounded(q) && FormValid(cls, form)
    ensures |discarded| >= 2
    ensures discarded[|discarded| - 1] == Update(Sending, "info", stamps.1)
    ensures discarded[|discarded| - 2] == Update(Received, "info", stamps.0)
  {
    var r := SendUpdate(q, Update(Received, "info", stamps.0));
    r := SendUpdate(r, Update(Sending, "info", stamps.1));
    var remaining;
    remaining, discarded := Drain(r);
  }
}
