/** An ordered byte stream over a multipart upload: bytes are cut into numbered parts, uploaded by parallel workers in any
    order, and committed as one object. Each method is one critical section. */
module UploadStream {
  import opened CatalogTypes

  type Byte = x: int | 0 <= x < 256

  datatype Limits = Limits(minPart: nat, maxPart: nat, maxParts: nat, maxObject: nat)

  /** What the backend returns for a part: its number, its size and a checksum of its bytes. */
  datatype Receipt = Receipt(number: nat, size: nat, checksum: nat)

  datatype Request = Request(receipts: seq<Receipt>, size: nat, checksum: nat)

  function Sum(rs: seq<Receipt>): nat { if rs == [] then 0 else Sum(rs[..|rs|-1]) + rs[|rs|-1].size }

  /** What a backend asks of a commit: parts numbered from one without gap, none empty or too large, none but the last too
      small, their number and total within the limits, and the total as announced. */
  predicate RequestOk(q: Request, l: Limits) {
    && q.receipts != [] && |q.receipts| <= l.maxParts
    && (forall i :: 0 <= i < |q.receipts| ==> q.receipts[i].number == i + 1 && 0 < q.receipts[i].size <= l.maxPart)
    && (forall i :: 0 <= i < |q.receipts| - 1 ==> q.receipts[i].size >= l.minPart)
    && Sum(q.receipts) == q.size <= l.maxObject
  }

  /** The backend's check of a commit request. */
  method ValidateCommitRequest(q: Request, l: Limits) returns (ok: bool)
    requires l.maxObject <= MAX_U64 && q.size <= MAX_U64
    ensures ok <==> RequestOk(q, l)
  {
    hide Sum;
    if |q.receipts| == 0 || |q.receipts| > l.maxParts { return false; }
    var i, size := 0, 0;
    SumNone(q.receipts);
    while i < |q.receipts|
      invariant 0 <= i <= |q.receipts| && size == Sum(q.receipts[..i]) <= MAX_U64
      invariant forall j :: 0 <= j < i ==> q.receipts[j].number == j + 1 && 0 < q.receipts[j].size <= l.maxPart
      invariant forall j :: 0 <= j < i && j < |q.receipts| - 1 ==> q.receipts[j].size >= l.minPart
    {
      var r := q.receipts[i];
      if r.number != i + 1 || r.size == 0 || r.size > l.maxPart || (i < |q.receipts| - 1 && r.size < l.minPart) { return false; }
      SumNext(q.receipts, i);
      if MAX_U64 - size < r.size {
        SumGrows(q.receipts, i + 1);
        return false;
      }
      size := size + r.size;
      i := i + 1;
    }
    assert q.receipts[..i] == q.receipts;
    return size == q.size && size <= l.maxObject;
  }

  lemma SumNone(rs: seq<Receipt>)
    ensures Sum(rs[..0]) == 0
  {
  }

  lemma SumNext(rs: seq<Receipt>, i: nat)
    requires i < |rs|
    ensures Sum(rs[..i+1]) == Sum(rs[..i]) + rs[i].size
  {
    assert rs[..i+1][..i] == rs[..i];
  }

  lemma {:induction false} SumGrows(rs: seq<Receipt>, n: nat)
    requires n <= |rs|
    ensures Sum(rs[..n]) <= Sum(rs)
    decreases |rs| - n
  {
    if n == |rs| {
      assert rs[..n] == rs;
    } else {
      assert rs[..n+1][..n] == rs[..n];
      SumGrows(rs, n + 1);
    }
  }

  // ---- Parts ----

  function Flatten(parts: seq<seq<Byte>>): seq<Byte> {
    if parts == [] then [] else Flatten(parts[..|parts|-1]) + parts[|parts|-1]
  }

  lemma FlattenNext(parts: seq<seq<Byte>>, p: seq<Byte>)
    ensures Flatten(parts + [p]) == Flatten(parts) + p
  {
    assert (parts + [p])[..|parts|] == parts;
  }

  /** All parts have the part size. */
  ghost predicate Full(parts: seq<seq<Byte>>, size: nat) { forall k :: 0 <= k < |parts| ==> |parts[k]| == size }

  lemma {:induction false} FullLength(parts: seq<seq<Byte>>, size: nat)
    requires Full(parts, size)
    ensures |Flatten(parts)| == |parts| * size
  {
    if parts != [] {
      var n := |parts| - 1;
      FullLength(parts[..n], size);
      assert |Flatten(parts)| == n * size + size;
    }
  }

  /** The number of parts a stream of this many bytes takes. */
  function PartCount(bytes: nat, size: nat): nat
    requires size > 0
  {
    if bytes == 0 then 0 else (bytes - 1) / size + 1
  }

  lemma PartCountIs(k: nat, size: nat, rest: nat)
    requires 0 < rest <= size
    ensures PartCount(k * size + rest, size) == k + 1
  {
    Quotient(k, size, rest - 1);
    assert k * size + rest - 1 == k * size + (rest - 1);
  }

  lemma Quotient(k: nat, size: nat, r: nat)
    requires r < size
    ensures (k * size + r) / size == k
  {
    var q := (k * size + r) / size;
    var m := (k * size + r) % size;
    assert k * size + r == q * size + m && 0 <= m < size;
    if q > k { Scale(k + 1, q, size); } else if q < k { Scale(q + 1, k, size); }
  }

  lemma Scale(a: nat, b: nat, size: nat)
    requires a <= b
    ensures a * size <= b * size
  {
  }

  lemma PartCountMonotone(a: nat, b: nat, size: nat)
    requires a <= b && size > 0
    ensures PartCount(a, size) <= PartCount(b, size)
  {
    if 0 < a { Divides(a - 1, b - 1, size); }
  }

  lemma Divides(a: nat, b: nat, size: nat)
    requires a <= b && size > 0
    ensures a / size <= b / size
  {
    var q, p := a / size, b / size;
    assert b < (p + 1) * size && q * size <= a;
    if p < q { Scale(p + 1, q, size); }
  }

  // ---- What the stream holds ----

  function ReceiptOf(number: nat, part: seq<Byte>, checksum: seq<Byte> -> nat): Receipt { Receipt(number, |part|, checksum(part)) }

  predicate Usable(l: Limits, size: nat) {
    0 < size && l.minPart <= size <= l.maxPart && l.maxParts > 0 && 0 < l.maxObject <= MAX_U64
  }

  /** The accepted bytes are the parts cut so far and the bytes being gathered, and they fit the limits. */
  ghost predicate Gathered(l: Limits, size: nat, parts: seq<seq<Byte>>, active: seq<Byte>, accepted: seq<Byte>, sealed: bool) {
    && Usable(l, size) && accepted == Flatten(parts) + active && |accepted| <= l.maxObject && PartCount(|accepted|, size) <= l.maxParts
    && (!sealed ==> Full(parts, size) && |active| <= size)
    && (sealed ==> active == [] && parts != [] && Full(parts[..|parts|-1], size) && 0 < |parts[|parts|-1]| <= size)
  }

  /** Each part is either on its way or acknowledged with its own receipt. */
  ghost predicate Tracked(parts: seq<seq<Byte>>, jobs: map<nat, seq<Byte>>, receipts: map<nat, Receipt>, checksum: seq<Byte> -> nat) {
    && (forall n :: n in jobs ==> 1 <= n <= |parts| && jobs[n] == parts[n-1] && n !in receipts)
    && (forall n :: n in receipts ==> 1 <= n <= |parts| && receipts[n] == ReceiptOf(n, parts[n-1], checksum))
    && (forall n :: 1 <= n <= |parts| ==> n in jobs || n in receipts)
  }

  lemma TrackedNext(parts: seq<seq<Byte>>, jobs: map<nat, seq<Byte>>, receipts: map<nat, Receipt>, checksum: seq<Byte> -> nat, p: seq<Byte>)
    requires Tracked(parts, jobs, receipts, checksum)
    ensures Tracked(parts + [p], jobs[|parts| + 1 := p], receipts, checksum)
  {
    var all, more := parts + [p], jobs[|parts| + 1 := p];
    forall n | n in more ensures 1 <= n <= |all| && more[n] == all[n-1] && n !in receipts {}
  }

  /** A part whose receipt arrives is acknowledged. */
  lemma Acknowledged(parts: seq<seq<Byte>>, jobs: map<nat, seq<Byte>>, receipts: map<nat, Receipt>, checksum: seq<Byte> -> nat, n: nat)
    requires Tracked(parts, jobs, receipts, checksum) && n in jobs
    ensures Tracked(parts, jobs - {n}, receipts[n := ReceiptOf(n, jobs[n], checksum)], checksum)
  {
    var left, now := jobs - {n}, receipts[n := ReceiptOf(n, jobs[n], checksum)];
    forall k | 1 <= k <= |parts| ensures k in left || k in now { assert k in jobs || k in receipts; }
  }

  lemma CutFull(l: Limits, size: nat, parts: seq<seq<Byte>>, active: seq<Byte>, accepted: seq<Byte>)
    requires Gathered(l, size, parts, active, accepted, false) && |active| == size
    ensures Gathered(l, size, parts + [active], [], accepted, false)
  {
    hide Flatten;
    FlattenNext(parts, active);
    assert accepted + [] == accepted;
  }

  lemma CutLast(l: Limits, size: nat, parts: seq<seq<Byte>>, active: seq<Byte>, accepted: seq<Byte>)
    requires Gathered(l, size, parts, active, accepted, false) && accepted != []
    ensures active != [] ==> Gathered(l, size, parts + [active], [], accepted, true)
    ensures active == [] ==> Gathered(l, size, parts, active, accepted, true)
  {
    hide Flatten;
    if active != [] {
      FlattenNext(parts, active);
      assert accepted + [] == accepted;
      assert (parts + [active])[..|parts|] == parts;
    } else {
      NoParts();
    }
  }

  lemma NoParts()
    ensures Flatten([]) == []
  {
  }

  /** More bytes within the limits. */
  lemma More(l: Limits, size: nat, parts: seq<seq<Byte>>, active: seq<Byte>, accepted: seq<Byte>, data: seq<Byte>, limit: nat)
    requires Gathered(l, size, parts, active, accepted, false) && |active| + |data| <= size
    requires |accepted| + |data| <= limit <= l.maxObject && PartCount(limit, size) <= l.maxParts
    ensures Gathered(l, size, parts, active + data, accepted + data, false)
  {
    hide Flatten, PartCount;
    assert (Flatten(parts) + active) + data == Flatten(parts) + (active + data);
    PartCountMonotone(|accepted| + |data|, limit, size);
  }

  // ---- Committing ----

  lemma {:induction false} Few(keys: set<nat>, n: nat)
    requires forall k :: k in keys ==> 1 <= k <= n
    ensures |keys| <= n
  {
    if n > 0 { Few(keys - {n}, n - 1); } else { assert keys == {}; }
  }

  lemma {:induction false} Many(keys: set<nat>, n: nat)
    requires forall k :: 1 <= k <= n ==> k in keys
    ensures |keys| >= n
  {
    if n > 0 {
      Many(keys - {n}, n - 1);
      assert |keys - {n}| == |keys| - 1;
    }
  }

  /** When no part is on its way there is one receipt for every part. */
  lemma ReceiptCount(parts: seq<seq<Byte>>, receipts: map<nat, Receipt>, checksum: seq<Byte> -> nat)
    requires Tracked(parts, map[], receipts, checksum)
    ensures |receipts| == |parts| && forall n :: 1 <= n <= |parts| ==> n in receipts
  {
    Few(receipts.Keys, |parts|);
    var none: map<nat, seq<Byte>> := map[];
    assert forall n :: 1 <= n <= |parts| ==> n in none || n in receipts;
    Many(receipts.Keys, |parts|);
    assert |receipts| == |receipts.Keys|;
  }

  /** The request names each part once, in order, by its own receipt, and announces the size and checksum of all the bytes. */
  ghost predicate Describes(q: Request, parts: seq<seq<Byte>>, accepted: seq<Byte>, checksum: seq<Byte> -> nat) {
    && |q.receipts| == |parts| && q.size == |accepted| && q.checksum == checksum(accepted)
    && forall i :: 0 <= i < |parts| ==> q.receipts[i] == ReceiptOf(i + 1, parts[i], checksum)
  }

  /** Every part but the last has exactly the part size, and the last is not empty. */
  ghost predicate PartsCut(parts: seq<seq<Byte>>, size: nat) {
    parts != [] && Full(parts[..|parts|-1], size) && 0 < |parts[|parts|-1]| <= size
  }

  lemma SealedCut(l: Limits, size: nat, parts: seq<seq<Byte>>, active: seq<Byte>, accepted: seq<Byte>)
    requires Gathered(l, size, parts, active, accepted, true)
    ensures PartsCut(parts, size)
  {
    hide Flatten, PartCount;
  }

  /** A request that describes a sealed stream passes the backend's check, and its parts in order are all the accepted
      bytes. */
  lemma CommitAccepted(l: Limits, size: nat, parts: seq<seq<Byte>>, accepted: seq<Byte>, q: Request, checksum: seq<Byte> -> nat)
    requires Gathered(l, size, parts, [], accepted, true) && Describes(q, parts, accepted, checksum)
    ensures RequestOk(q, l) && Flatten(parts) == accepted
  {
    hide Flatten, PartCount;
    var receipts := q.receipts;
    assert Flatten(parts) + [] == Flatten(parts);
    SumFlatten(parts, receipts, checksum, |parts|);
    assert parts[..|parts|] == parts && receipts[..|parts|] == receipts;
    var n := |parts| - 1;
    var front := parts[..n];
    FullLength(front, size);
    FlattenLast(parts);
    PartCountIs(n, size, |parts[n]|);
    forall i | 0 <= i < |receipts| ensures 0 < receipts[i].size <= l.maxPart && (i < n ==> receipts[i].size >= l.minPart) {
      if i < n { assert front[i] == parts[i]; }
    }
  }

  lemma FlattenLast(parts: seq<seq<Byte>>)
    requires parts != []
    ensures Flatten(parts) == Flatten(parts[..|parts|-1]) + parts[|parts|-1]
  {
  }

  lemma {:induction false} SumFlatten(parts: seq<seq<Byte>>, receipts: seq<Receipt>, checksum: seq<Byte> -> nat, n: nat)
    requires n <= |parts| == |receipts| && forall i :: 0 <= i < |parts| ==> receipts[i] == ReceiptOf(i + 1, parts[i], checksum)
    ensures Sum(receipts[..n]) == |Flatten(parts[..n])|
  {
    if n > 0 {
      SumFlatten(parts, receipts, checksum, n - 1);
      assert receipts[..n][..n-1] == receipts[..n-1] && parts[..n][..n-1] == parts[..n-1];
    }
  }

  lemma CountOf(total: nat, size: nat)
    requires total > 0 && size > 0
    ensures PartCount(total, size) == (total - 1) / size + 1
  {
  }

  lemma NothingActive(l: Limits, size: nat, parts: seq<seq<Byte>>, active: seq<Byte>, accepted: seq<Byte>)
    requires Gathered(l, size, parts, active, accepted, true)
    ensures active == [] && Gathered(l, size, parts, [], accepted, true)
  {
  }

  datatype State = Open | Sealed | Failed | Aborting | Aborted | Committing | Completed | Indeterminate

  /** What one turn of the write loop meets: a buffer or queue slot refused, and meanwhile the parts other workers finish
      and an abort of another caller. */
  datatype Turn = Turn(noBuffer: bool, noSlot: bool, answers: seq<(nat, Option<Receipt>)>, abort: bool)

  /** Part n of a stream cut at every `size` bytes. */
  function PartOf(stream: seq<Byte>, n: nat, size: nat): seq<Byte>
    requires 0 < n && n * size <= |stream|
  {
    BeforePart(n, size);
    stream[(n - 1) * size..n * size]
  }

  lemma BeforePart(n: nat, size: nat)
    requires n > 0
    ensures 0 <= (n - 1) * size <= n * size
  {
    Scale(n - 1, n, size);
  }

  /** A turn in which nothing goes wrong: the stream is given what it asks for, nobody aborts it, and every answer is the
      receipt of the part it names. */
  ghost predicate Calm(turn: Turn, stream: seq<Byte>, size: nat, checksum: seq<Byte> -> nat) {
    && !turn.noBuffer && !turn.noSlot && !turn.abort
    && forall k :: 0 <= k < |turn.answers| ==> Truthful(turn.answers[k], stream, size, checksum)
  }

  ghost predicate Truthful(answer: (nat, Option<Receipt>), stream: seq<Byte>, size: nat, checksum: seq<Byte> -> nat) {
    0 < answer.0 && answer.0 * size <= |stream| ==> answer.1 == Some(ReceiptOf(answer.0, PartOf(stream, answer.0, size), checksum))
  }

  /** The part gathered as number n is part n of the stream. */
  lemma {:induction false} CutAt(parts: seq<seq<Byte>>, size: nat, n: nat, stream: seq<Byte>)
    requires Full(parts, size) && 0 < n <= |parts| && Flatten(parts) <= stream
    ensures n * size <= |stream| && parts[n-1] == PartOf(stream, n, size)
    decreases |parts|
  {
    var last := |parts| - 1;
    FullLength(parts, size);
    FullLength(parts[..last], size);
    if n <= last {
      CutAt(parts[..last], size, n, stream);
    } else {
      BeforePart(n, size);
      assert stream[..|Flatten(parts)|] == Flatten(parts);
      assert PartOf(stream, n, size) == Flatten(parts)[(n - 1) * size..n * size];
    }
  }

  lemma TruthfulParts(l: Limits, size: nat, parts: seq<seq<Byte>>, active: seq<Byte>, accepted: seq<Byte>, jobs: map<nat, seq<Byte>>, receipts: map<nat, Receipt>,
                      checksum: seq<Byte> -> nat, stream: seq<Byte>, answer: (nat, Option<Receipt>))
    requires Gathered(l, size, parts, active, accepted, false) && Tracked(parts, jobs, receipts, checksum) && accepted <= stream
    requires Truthful(answer, stream, size, checksum) && answer.0 in jobs
    ensures answer.1 == Some(ReceiptOf(answer.0, jobs[answer.0], checksum))
  {
    hide Flatten, PartCount;
    assert Flatten(parts) <= stream;
    CutAt(parts, size, answer.0, stream);
  }

  lemma CalmTurn(turns: seq<Turn>, step: nat, stream: seq<Byte>, size: nat, checksum: seq<Byte> -> nat)
    requires forall t :: t in turns ==> Calm(t, stream, size, checksum)
    ensures var turn := if step < |turns| then turns[step] else Turn(false, false, [], false);
            && !turn.noBuffer && !turn.noSlot && !turn.abort
            && forall k :: 0 <= k < |turn.answers| ==> Truthful(turn.answers[k], stream, size, checksum)
  {
    if step < |turns| { assert turns[step] in turns; }
  }

  class Upload {
    const limits: Limits
    const partSize: nat
    const checksum: seq<Byte> -> nat
    var state: State
    var active: seq<Byte>
    var jobs: map<nat, seq<Byte>>
    var receipts: map<nat, Receipt>
    var nextPart: nat
    var offset: nat
    var jobsClosed: bool
    /** The bytes fed to the running hash. */
    var accepted: seq<Byte>
    ghost var parts: seq<seq<Byte>>
    /** Every commit request the backend has been sent. */
    ghost var sent: seq<Request>

    ghost predicate Live()
      reads this
    {
      state == Open || state == Sealed || Decided()
    }

    ghost predicate Decided()
      reads this
    {
      state == Committing || state == Completed || state == Indeterminate
    }

    ghost predicate Valid()
      reads this
    {
      && Usable(limits, partSize)
      && (Live() ==>
            && Gathered(limits, partSize, parts, active, accepted, jobsClosed) && Tracked(parts, jobs, receipts, checksum)
            && nextPart == |parts| + 1 && offset == |accepted| && (jobsClosed <==> state != Open) && (state == Open ==> |active| < partSize))
      && (Decided() ==> jobs == map[] && sent != [])
      && (state == Open ==> sent == [])
      && (forall q :: q in sent ==> RequestOk(q, limits) && Describes(q, parts, accepted, checksum) && Flatten(parts) == accepted)
      && (sent != [] ==> PartsCut(parts, partSize))
    }

    constructor (limits: Limits, partSize: nat, checksum: seq<Byte> -> nat)
      requires Usable(limits, partSize)
      ensures Valid() && state == Open && accepted == [] && sent == []
      ensures this.limits == limits && this.partSize == partSize && this.checksum == checksum
    {
      this.limits, this.partSize, this.checksum := limits, partSize, checksum;
      state, active, jobs, receipts, nextPart, offset, jobsClosed := Open, [], map[], map[], 1, 0, false;
      parts, accepted, sent := [], [], [];
    }

    /** The bytes being gathered become the next part. */
    method Cut()
      requires Usable(limits, partSize) && state == Open && !jobsClosed && sent == [] && offset == |accepted| && nextPart == |parts| + 1
      requires Gathered(limits, partSize, parts, active, accepted, false) && Tracked(parts, jobs, receipts, checksum) && |active| == partSize
      modifies this`active, this`jobs, this`nextPart, this`parts
      ensures Valid() && active == []
    {
      hide Gathered, Tracked, PartCount, Flatten;
      CutFull(limits, partSize, parts, active, accepted);
      TrackedNext(parts, jobs, receipts, checksum, active);
      jobs, parts, active, nextPart := jobs[nextPart := active], parts + [active], [], nextPart + 1;
    }

    /** Takes bytes up to the end of the part being gathered, and hands on a part that is full. */
    method Gather(chunk: seq<Byte>, ghost total: nat, noSlot: bool) returns (ok: bool)
      requires Valid() && state == Open && |active| + |chunk| <= partSize
      requires |accepted| + |chunk| <= total <= limits.maxObject && PartCount(total, partSize) <= limits.maxParts
      modifies this`state, this`active, this`jobs, this`nextPart, this`offset, this`jobsClosed, this`parts, this`accepted
      ensures Valid() && (state == if ok then Open else Failed) && (!ok ==> noSlot)
      ensures ok ==> accepted == old(accepted) + chunk && offset == old(offset) + |chunk|
    {
      hide Gathered, Tracked, PartCount, Flatten, Describes, RequestOk, PartsCut;
      More(limits, partSize, parts, active, accepted, chunk, total);
      active, offset, accepted := active + chunk, offset + |chunk|, accepted + chunk;
      if |active| == partSize {
        if noSlot {
          Discard();
          return false;
        }
        Cut();
      }
      return true;
    }

    /** The limits leave room for the bytes. */
    predicate Fits(before: nat, data: seq<Byte>) {
      partSize > 0 && (data == [] || (before + |data| <= limits.maxObject && PartCount(before + |data|, partSize) <= limits.maxParts))
    }

    /** Accepts all of the bytes or none, unless the upload fails or is aborted on the way. A refusal before any byte was taken leaves the
        stream as it was; one after it fails the stream. Bytes that fit are accepted when nothing goes wrong meanwhile. */
    method Write(data: seq<Byte>, turns: seq<Turn>) returns (ok: bool)
      requires Valid()
      modifies this`state, this`active, this`jobs, this`receipts, this`nextPart, this`offset, this`jobsClosed, this`parts, this`accepted
      ensures Valid()
      ensures ok ==> old(state) == Open && (state == Failed || state == Aborting || (state == Open && accepted == old(accepted) + data))
      ensures !ok ==> (old(state) == Open && state == Failed) || (state == old(state) && accepted == old(accepted) && active == old(active) && jobs == old(jobs))
      ensures old(state) == Open && !Fits(|old(accepted)|, data) ==> !ok && state == Open
      ensures old(state) == Open && Fits(|old(accepted)|, data) && (forall t :: t in turns ==> Calm(t, old(accepted) + data, partSize, checksum)) ==>
                ok && state == Open
    {
      hide Gathered, Tracked, PartCount, Flatten, Describes, RequestOk, PartsCut, Calm;
      if state != Open { return false; }
      ghost var stream := old(accepted) + data;
      if |data| == 0 {
        assert accepted + data == accepted;
        return true;
      }
      if |data| > limits.maxObject || offset > limits.maxObject - |data| { return false; }
      var total := offset + |data|;
      CountOf(total, partSize);
      if (total - 1) / partSize + 1 > limits.maxParts { return false; }
      var i, step := 0, 0;
      while i < |data| && state == Open
        invariant 0 <= i <= |data| && 0 <= step && Valid() && (state == Open || state == Failed || state == Aborting) && (i == 0 ==> state == Open)
        invariant state == Open ==> accepted == old(accepted) + data[..i] && offset + (|data| - i) == total
        invariant i == 0 ==> active == old(active) && jobs == old(jobs)
        invariant (forall t :: t in turns ==> Calm(t, stream, partSize, checksum)) ==> state == Open
        decreases |data| - i
      {
        var turn := if step < |turns| then turns[step] else Turn(false, false, [], false);
        ghost var calm := forall t :: t in turns ==> Calm(t, stream, partSize, checksum);
        if calm { CalmTurn(turns, step, stream, partSize, checksum); }
        if active == [] && turn.noBuffer {
          if i > 0 { Discard(); }
          else { assert accepted == old(accepted); }
          return false;
        }
        var room := partSize - |active|;
        var n := if |data| - i < room then |data| - i else room;
        assert data[..i] + data[i..i+n] == data[..i+n];
        assert (old(accepted) + data[..i]) + data[i..i+n] == old(accepted) + data[..i+n];
        var taken := Gather(data[i..i+n], total, turn.noSlot);
        if !taken { return false; }
        i := i + n;
        assert accepted <= stream by { assert old(accepted) + data == (old(accepted) + data[..i]) + data[i..]; }
        Answer(turn.answers, stream);
        if turn.abort { var _ := Abort(); }
        step := step + 1;
      }
      assert state == Open ==> data[..i] == data;
      return true;
    }

    /** A failure that strands accepted bytes: nothing more is accepted and nothing is committed. */
    method Discard()
      requires Usable(limits, partSize) && sent == []
      modifies this`state, this`active, this`jobsClosed
      ensures Valid() && state == Failed
    {
      state, active, jobsClosed := Failed, [], true;
    }

    /** Several workers finish, in the given order; numbers not on their way are passed over. */
    method Answer(answers: seq<(nat, Option<Receipt>)>, ghost stream: seq<Byte>)
      requires Valid() && (state == Open ==> accepted <= stream)
      modifies this`state, this`active, this`jobs, this`receipts, this`jobsClosed
      ensures Valid() && (state == old(state) || (old(state) in {Open, Sealed} && state == Failed)) && (state == Open ==> active == old(active))
      ensures old(state) == Open && (forall k :: 0 <= k < |answers| ==> Truthful(answers[k], stream, partSize, checksum)) ==> state == Open
    {
      hide Gathered, Tracked, Describes, RequestOk, PartsCut, Flatten, Truthful;
      for k := 0 to |answers|
        invariant old(state) == Open && (forall m :: 0 <= m < k ==> Truthful(answers[m], stream, partSize, checksum)) ==> state == Open
        invariant Valid() && (state == old(state) || (old(state) in {Open, Sealed} && state == Failed)) && (state == Open ==> active == old(active))
      {
        if answers[k].0 in jobs {
          if state == Open && Truthful(answers[k], stream, partSize, checksum) {
            TruthfulParts(limits, partSize, parts, active, accepted, jobs, receipts, checksum, stream, answers[k]);
          }
          PutPart(answers[k].0, answers[k].1);
        }
      }
    }

    /** A worker finishes part n, in whatever order; a receipt that does not match the part fails the stream. */
    method PutPart(n: nat, answer: Option<Receipt>)
      requires Valid() && n in jobs
      modifies this`state, this`jobs, this`receipts, this`active, this`jobsClosed
      ensures Valid() && jobs == old(jobs) - {n}
      ensures answer == Some(ReceiptOf(n, old(jobs)[n], checksum)) ==> state == old(state) && active == old(active) && n in receipts
      ensures answer != Some(ReceiptOf(n, old(jobs)[n], checksum)) ==> receipts == old(receipts) && state == if old(state) in {Open, Sealed} then Failed else old(state)
    {
      hide Gathered, Tracked, Flatten, Describes, RequestOk, PartsCut;
      var part := jobs[n];
      if answer != Some(ReceiptOf(n, part, checksum)) {
        if state == Open || state == Sealed { state := Failed; }
        jobs, active, jobsClosed := jobs - {n}, [], true;
        return;
      }
      if Live() { Acknowledged(parts, jobs, receipts, checksum, n); }
      receipts, jobs := receipts[n := ReceiptOf(n, part, checksum)], jobs - {n};
    }

    /** Seals the stream: the bytes still being gathered become the last part. A refused slot leaves it open; an empty
        stream cannot be sealed; a stream whose commit has an unknown outcome is sealed again as it was. */
    method BeginSeal(noSlot: bool) returns (ok: bool)
      requires Valid()
      modifies this`state, this`active, this`jobs, this`nextPart, this`jobsClosed, this`parts
      ensures Valid()
      ensures ok <==> old(state) in {Sealed, Completed, Indeterminate} || (old(state) == Open && accepted != [] && !(noSlot && old(active) != []))
      ensures ok ==> state == if old(state) == Completed then Completed else Sealed
      ensures !ok ==> state == old(state) && active == old(active) && jobs == old(jobs)
    {
      hide Gathered, Tracked, PartCount, Flatten, Describes, RequestOk, PartsCut;
      match state
      case Completed => return true;
      case Sealed => return true;
      case Indeterminate =>
        state := Sealed;
        return true;
      case Open =>
        if offset == 0 || (active != [] && noSlot) { return false; }
        CutLast(limits, partSize, parts, active, accepted);
        if active != [] {
          TrackedNext(parts, jobs, receipts, checksum, active);
          jobs, parts, active, nextPart := jobs[nextPart := active], parts + [active], [], nextPart + 1;
        }
        state, jobsClosed := Sealed, true;
        return true;
      case _ => return false;
    }

    /** With every worker done, collects the receipts in part order and sends the request. */
    method PrepareCommit() returns (q: Option<Request>)
      requires Valid() && jobsClosed && jobs == map[]
      modifies this`state, this`sent
      ensures Valid()
      ensures q.Some? <==> old(state) == Sealed
      ensures q.Some? ==> state == Committing && sent == old(sent) + [q.value]
      ensures q.None? ==> state == old(state) && sent == old(sent)
    {
      hide Gathered, Flatten, PartCount, RequestOk, PartsCut;
      if state != Sealed { return None; }
      var count := nextPart - 1;
      ReceiptCount(parts, receipts, checksum);
      assert |receipts| == count;
      var ordered: seq<Receipt> := [];
      while |ordered| < count
        invariant |ordered| <= count && forall i :: 0 <= i < |ordered| ==> ordered[i] == ReceiptOf(i + 1, parts[i], checksum)
        decreases count - |ordered|
      {
        ordered := ordered + [receipts[|ordered| + 1]];
      }
      NothingActive(limits, partSize, parts, active, accepted);
      SealedCut(limits, partSize, parts, active, accepted);
      var request := Request(ordered, offset, checksum(accepted));
      CommitAccepted(limits, partSize, parts, accepted, request, checksum);
      state, sent := Committing, sent + [request];
      return Some(request);
    }

    /** The backend's answer: done, definitely refused, or unknown. */
    method FinishCommit(answer: Option<bool>)
      requires Valid() && state == Committing
      modifies this`state
      ensures Valid() && state == if answer == Some(true) then Completed else if answer == Some(false) then Failed else Indeterminate
    {
      hide Gathered, Tracked, Describes, RequestOk, PartsCut;
      state := if answer == Some(true) then Completed else if answer == Some(false) then Failed else Indeterminate;
    }

    /** Stops the stream, unless a commit is under way; a completed stream is left alone. */
    method Abort() returns (ok: bool)
      requires Valid()
      modifies this`state, this`active, this`jobsClosed
      ensures Valid() && (ok <==> old(state) != Committing)
      ensures state == if old(state) in {Committing, Completed, Aborted, Aborting} then old(state) else Aborting
    {
      hide Gathered, Tracked, Describes, RequestOk, PartsCut;
      if state == Committing { return false; }
      if state == Completed || state == Aborted || state == Aborting { return true; }
      state, active, jobsClosed := Aborting, [], true;
      return true;
    }

    method FinishAbort()
      requires Valid() && state == Aborting
      modifies this`state
      ensures Valid() && state == Aborted
    {
      hide Gathered, Tracked, Describes, RequestOk, PartsCut;
      state := Aborted;
    }
  }

  /** Opens a stream exactly when the provider's limits are usable and the part size is within them. */
  method Begin(limits: Limits, partSize: nat, checksum: seq<Byte> -> nat) returns (u: Option<Upload>)
    requires limits.maxObject <= MAX_U64
    ensures u.Some? <==> Usable(limits, partSize)
    ensures u.Some? ==> fresh(u.value) && u.value.Valid() && u.value.state == Open && u.value.accepted == [] && u.value.sent == []
                        && u.value.limits == limits && u.value.partSize == partSize && u.value.checksum == checksum
  {
    if partSize == 0 || limits.maxPart == 0 || limits.minPart > limits.maxPart || limits.maxParts == 0 || limits.maxObject == 0 { return None; }
    if partSize > limits.maxPart || partSize < limits.minPart { return None; }
    var stream := new Upload(limits, partSize, checksum);
    return Some(stream);
  }

  // ---- Whole runs ----

  datatype Call =
    | DoWrite(data: seq<Byte>, turns: seq<Turn>)
    | DoAnswer(answers: seq<(nat, Option<Receipt>)>)
    | DoSeal(noSlot: bool)
    | DoCommit
    | DoFinish(answer: Option<bool>)
    | DoAbort
    | DoFinishAbort

  /** One call. The bytes of an accepted write are added to what the caller has been told is written. */
  method Perform(u: Upload, c: Call, ghost written: seq<Byte>) returns (ok: bool, ghost now: seq<Byte>)
    requires u.Valid() && ((u.Live() || u.sent != []) ==> u.accepted == written)
    modifies u
    ensures u.Valid() && ((u.Live() || u.sent != []) ==> u.accepted == now)
    ensures now == if ok && c.DoWrite? then written + c.data else written
  {
    hide Gathered, Tracked, Describes, RequestOk, PartsCut, Flatten;
    ok, now := true, written;
    match c
    case DoWrite(data, turns) =>
      ok := u.Write(data, turns);
      if ok { now := written + data; }
    case DoAnswer(answers) => u.Answer(answers, u.accepted);
    case DoSeal(noSlot) => ok := u.BeginSeal(noSlot);
    case DoCommit =>
      if u.jobsClosed && u.jobs == map[] { var q := u.PrepareCommit(); }
    case DoFinish(answer) =>
      if u.state == Committing { u.FinishCommit(answer); }
    case DoAbort => ok := u.Abort();
    case DoFinishAbort =>
      if u.state == Aborting { u.FinishAbort(); }
  }

  /** Over any run of a stream, however writers, workers, seals, commits, retries and aborts interleave: the backend is only
      ever sent one request, repeated; it passes the backend's check; and its parts, put together in part order, are exactly
      the bytes of the writes that were accepted. A completed stream has sent it. */
  method Drive(limits: Limits, partSize: nat, checksum: seq<Byte> -> nat, calls: seq<Call>) returns (o: Option<Upload>, ghost written: seq<Byte>)
    requires limits.maxObject <= MAX_U64
    ensures o.Some? <==> Usable(limits, partSize)
    ensures o.Some? ==> OneRequest(o.value, limits, written, checksum)
  {
    hide Gathered, Tracked, RequestOk, PartsCut, Flatten, OneRequest;
    written := [];
    o := Begin(limits, partSize, checksum);
    if o.None? { return; }
    var u := o.value;
    for k := 0 to |calls|
      invariant u.Valid() && ((u.Live() || u.sent != []) ==> u.accepted == written)
      invariant u.limits == limits && u.checksum == checksum
    {
      var ok;
      ok, written := Perform(u, calls[k], written);
    }
    SentOnce(u, limits, written, checksum);
  }

  /** All requests sent are one request; it passes the backend's check and is made of exactly the bytes written, cut into parts
      of the part size. */
  ghost predicate OneRequest(u: Upload, limits: Limits, written: seq<Byte>, checksum: seq<Byte> -> nat)
    reads u
  {
    && (u.state == Completed ==> u.sent != [])
    && (forall q :: q in u.sent ==> RequestOk(q, limits) && Describes(q, u.parts, written, checksum) && Flatten(u.parts) == written)
    && (forall q, r :: q in u.sent && r in u.sent ==> q == r)
    && (u.sent != [] ==> PartsCut(u.parts, u.partSize))
  }

  lemma SentOnce(u: Upload, limits: Limits, written: seq<Byte>, checksum: seq<Byte> -> nat)
    requires u.Valid() && u.limits == limits && u.checksum == checksum && (u.sent != [] ==> u.accepted == written)
    ensures OneRequest(u, limits, written, checksum)
  {
    hide Gathered, Tracked, RequestOk, PartsCut, Flatten;
    forall q, r | q in u.sent && r in u.sent ensures q == r {
      assert q.receipts == r.receipts;
    }
  }
}
