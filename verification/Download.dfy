/**
 Hand-over of an arrived file between the thread that opens it, the request that waits for it and
 the response that streams it. The critical sections are pure functions on the shared state; the
 classes carry them out on objects, and the protocol module interleaves them.
 */
module Download {

  type Byte = b: int | 0 <= b < 256

  /** What the opener and the waiting request share under their lock. */
  datatype Pending = Pending(abandoned: bool, holds: bool)

  /** The opener hands its body over, or learns that it must close it itself. */
  function Registered(p: Pending): (r: (Pending, bool)) {
    if p.abandoned then (p, true) else (p.(holds := true), false)
  }

  /** The request has the body in its own hands now. */
  function Taken(p: Pending): Pending {
    p.(holds := false)
  }

  /** The request goes away, and picks up a body that was handed over already. */
  function Abandoned(p: Pending): (r: (Pending, bool)) {
    (Pending(true, false), p.holds)
  }

  /** A lease: its close section first closes the body, then gives the permit back. */
  datatype Lease = NoLease | Held | Releasing | Closed

  class Body {
    var closes: nat
    const failsToClose: bool

    constructor (failsToClose: bool)
      ensures closes == 0 && this.failsToClose == failsToClose
    {
      closes := 0;
      this.failsToClose := failsToClose;
    }

    /** A close that raises was still an attempt to close. */
    method Close() returns (raised: bool)
      modifies this
      ensures closes == old(closes) + 1 && raised == failsToClose
    {
      closes := closes + 1;
      raised := failsToClose;
    }
  }

  class Semaphore {
    var available: int

    constructor (permits: nat)
      ensures available == permits
    {
      available := permits;
    }

    method Release()
      modifies this
      ensures available == old(available) + 1
    {
      available := available + 1;
    }
  }

  class PendingOpen {
    var abandoned: bool
    var body: Body?

    function State(): Pending
      reads this
    {
      Pending(abandoned, body != null)
    }

    constructor ()
      ensures State() == Pending(false, false)
    {
      abandoned := false;
      body := null;
    }

    /** The opener's half, from the moment storage has returned an open body. */
    method Open(arrived: Body)
      modifies this, arrived
      ensures (State(), old(State()).abandoned) == Registered(old(State()))
      ensures body == if old(abandoned) then old(body) else arrived
      ensures arrived.closes == old(arrived.closes) + if old(abandoned) then 1 else 0
    {
      var late := abandoned;
      if !late {
        body := arrived;
      }
      if late {
        var _ := arrived.Close();
      }
    }

    method Take()
      modifies this
      ensures State() == Taken(old(State()))
    {
      body := null;
    }

    method Abandon()
      modifies this, body
      ensures State() == Abandoned(old(State())).0
      ensures old(body) != null ==> old(body).closes == old(body.closes) + 1
    {
      abandoned := true;
      var held := body;
      body := null;
      if held != null {
        var _ := held.Close();
      }
    }
  }

  class DownloadLease {
    const body: Body
    const semaphore: Semaphore?
    var closed: bool

    constructor (body: Body, semaphore: Semaphore?)
      ensures this.body == body && this.semaphore == semaphore && !closed
    {
      this.body := body;
      this.semaphore := semaphore;
      closed := false;
    }

    /** The permit goes back even when closing the body raises; a second call does nothing. */
    method Close() returns (raised: bool)
      modifies this, body, semaphore
      ensures closed
      ensures body.closes == old(body.closes) + if old(closed) then 0 else 1
      ensures semaphore != null ==>
                semaphore.available == old(semaphore.available) + if old(closed) then 0 else 1
      ensures raised == (!old(closed) && body.failsToClose)
    {
      raised := false;
      if !closed {
        closed := true;
        raised := body.Close();
        if semaphore != null {
          semaphore.Release();
        }
      }
    }
  }

  // ----- the stream -----

  /** What one read of the body gives; an empty chunk means the end of the object. */
  datatype Read = Chunk(bytes: seq<Byte>) | ReadFailed

  datatype Outcome = Complete | TooLong | TooShort | Interrupted

  function Joined(chunks: seq<Read>): (r: seq<Byte>) {
    if chunks == [] then []
    else Joined(chunks[..|chunks| - 1]) +
         match chunks[|chunks| - 1] case Chunk(bytes) => bytes case ReadFailed => []
  }

  ghost predicate DataOnly(chunks: seq<Read>) {
    forall k | 0 <= k < |chunks| :: chunks[k].Chunk? && chunks[k].bytes != []
  }

  lemma {:induction false} JoinedGrows(chunks: seq<Read>, k: nat)
    requires k <= |chunks|
    ensures |Joined(chunks[..k])| <= |Joined(chunks)| && Joined(chunks[..k]) <= Joined(chunks)
  {
    if k < |chunks| {
      var front := chunks[..|chunks| - 1];
      JoinedGrows(front, k);
      assert front[..k] == chunks[..k];
    } else {
      assert chunks[..k] == chunks;
    }
  }

  /**
   The first i reads are yielded whole, and the next one decides: no read or a failed one
   interrupts, one that would exceed the size is too long, the end of the object comes too soon
   or just in time.
   */
  ghost predicate StopsAt(chunks: seq<Read>, size: nat, i: nat, yielded: seq<Byte>, outcome: Outcome) {
    && i <= |chunks| && DataOnly(chunks[..i]) && yielded == Joined(chunks[..i]) && |yielded| <= size
    && if i == |chunks| || chunks[i].ReadFailed? then outcome == Interrupted
       else if chunks[i].bytes != [] then |yielded| + |chunks[i].bytes| > size && outcome == TooLong
       else outcome == if |yielded| == size then Complete else TooShort
  }

  /**
   The generator behind a streamed response. It ends normally exactly when the chunks up to the
   first empty one bring the authorized number of bytes; whatever it yields is a prefix of what
   was read and never more than was authorized; and on every way out the lease is closed.
   */
  method Chunks(chunks: seq<Read>, size: nat, lease: DownloadLease) returns (yielded: seq<Byte>, outcome: Outcome)
    modifies lease, lease.body, lease.semaphore
    ensures lease.closed
    ensures lease.body.closes == old(lease.body.closes) + if old(lease.closed) then 0 else 1
    ensures lease.semaphore != null ==>
              lease.semaphore.available == old(lease.semaphore.available) + if old(lease.closed) then 0 else 1
    ensures |yielded| <= size
    ensures yielded <= Joined(chunks)
    ensures outcome.Complete? <==>
            exists k: nat :: k < |chunks| && DataOnly(chunks[..k]) && chunks[k] == Chunk([])
              && |Joined(chunks[..k])| == size
    ensures outcome.Complete? ==>
              exists k: nat :: k < |chunks| && chunks[k] == Chunk([]) && yielded == Joined(chunks[..k])
                && |yielded| == size
    ensures exists i: nat :: StopsAt(chunks, size, i, yielded, outcome)
  {
    yielded := [];
    outcome := Interrupted;
    var i := 0;
    while i < |chunks| && chunks[i].Chunk? && chunks[i].bytes != [] && |yielded| + |chunks[i].bytes| <= size
      invariant i <= |chunks| && DataOnly(chunks[..i])
      invariant yielded == Joined(chunks[..i]) && |yielded| <= size
    {
      assert chunks[..i + 1][..i] == chunks[..i];
      yielded := yielded + chunks[i].bytes;
      i := i + 1;
    }
    JoinedGrows(chunks, i);
    if i < |chunks| {
      assert chunks[..i + 1][..i] == chunks[..i];
      if chunks[i].ReadFailed? {
        outcome := Interrupted;
      } else if chunks[i].bytes != [] {
        outcome := TooLong;
        assert |Joined(chunks[..i + 1])| > size;
      } else {
        outcome := if |yielded| == size then Complete else TooShort;
      }
    }
    assert StopsAt(chunks, size, i, yielded, outcome);
    StopsOnce(chunks, size, i, outcome);
    var _ := lease.Close();
  }

  /** The generator's stopping point is the only one at which it could end normally. */
  lemma StopsOnce(chunks: seq<Read>, size: nat, i: nat, outcome: Outcome)
    requires i <= |chunks| && DataOnly(chunks[..i])
    requires i < |chunks| ==> chunks[..i + 1][..i] == chunks[..i]
    requires i < |chunks| && chunks[i].Chunk? && chunks[i].bytes != [] ==> |Joined(chunks[..i + 1])| > size
    requires outcome.Complete? <==> i < |chunks| && chunks[i] == Chunk([]) && |Joined(chunks[..i])| == size
    ensures outcome.Complete? <==>
            exists k: nat :: k < |chunks| && DataOnly(chunks[..k]) && chunks[k] == Chunk([])
              && |Joined(chunks[..k])| == size
  {
    forall k: nat | k < i ensures chunks[k] != Chunk([]) {
      assert chunks[..i][k] == chunks[k];
    }
    forall k: nat | i < k < |chunks| && DataOnly(chunks[..k]) ensures |Joined(chunks[..k])| > size {
      assert chunks[..k][i] == chunks[i];
      JoinedGrows(chunks[..k], i + 1);
      assert chunks[..k][..i + 1] == chunks[..i + 1];
    }
  }
}
