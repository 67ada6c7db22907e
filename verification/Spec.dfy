/** What the store promises, over a plain map from keys to values. */
module Spec {
  import opened Pages
  import opened Lengths

  datatype Flag = NoFlag | NoOverwrite | OtherFlag

  datatype PutResult = Stored | DataTooBig | KeyTooBig | BadFlag | NotWritable | KeyExists | LongerThanStored

  /** A buffer size of 0 asks the store to allocate. */
  datatype GetResult = NotFound | TooSmall | BadChecksum | Found(val: Bytes)

  type Contents = map<Bytes, Bytes>

  /** Largest key a put accepts. */
  function MaxKeySize(bsize: nat): int {
    bsize - PAGE_OVERHEAD - PAIR_OVERHEAD - DATAP_SIZE
  }

  /** The outcome of a put; the checks come in this order. */
  function PutOutcome(m: Contents, bsize: nat, writable: bool, k: Bytes, v: Bytes, flag: Flag): PutResult {
    if |v| > MAX_DATASIZE then DataTooBig
    else if |k| > MaxKeySize(bsize) then KeyTooBig
    else if flag.OtherFlag? then BadFlag
    else if !writable then NotWritable
    else if k !in m then Stored
    else if flag.NoOverwrite? then KeyExists
    else if |v| > |m[k]| then LongerThanStored
    else Stored
  }

  function AfterPut(m: Contents, k: Bytes, v: Bytes, r: PutResult): Contents {
    if r.Stored? then m[k := v] else m
  }

  function GetOutcome(m: Contents, k: Bytes, bufsize: nat): GetResult {
    if k !in m then NotFound
    else if 0 < bufsize < |m[k]| then TooSmall
    else Found(m[k])
  }

  // ---------------------------------------------------------------- runs

  datatype Op = Put(key: Bytes, val: Bytes, flag: Flag) | Get(key: Bytes, bufsize: nat)

  datatype Reply = PutReply(put: PutResult) | GetReply(get: GetResult)

  function OpReply(m: Contents, bsize: nat, writable: bool, op: Op): Reply {
    match op
    case Put(k, v, f) => PutReply(PutOutcome(m, bsize, writable, k, v, f))
    case Get(k, n) => GetReply(GetOutcome(m, k, n))
  }

  function OpAfter(m: Contents, bsize: nat, writable: bool, op: Op): Contents {
    match op
    case Put(k, v, f) => AfterPut(m, k, v, PutOutcome(m, bsize, writable, k, v, f))
    case Get(k, n) => m
  }

  function RunAfter(m: Contents, bsize: nat, writable: bool, ops: seq<Op>): Contents
    decreases |ops|
  {
    if ops == [] then m
    else OpAfter(RunAfter(m, bsize, writable, ops[..|ops| - 1]), bsize, writable, ops[|ops| - 1])
  }

  /** What the code needs of a put that stores: a key that fits on an empty page, and no value
      of 4 GB or more replaced by a smaller one. */
  predicate PutAllowed(m: Contents, bsize: nat, writable: bool, k: Bytes, v: Bytes, flag: Flag) {
    PutOutcome(m, bsize, writable, k, v, flag).Stored? ==>
      |k| + 59 <= bsize && !(k in m && IsHuge(|m[k]|) && !IsHuge(|v|))
  }

  /** The same for a put that has passed the first checks. */
  lemma AllowedPut(m: Contents, bsize: nat, k: Bytes, v: Bytes, flag: Flag)
    requires PutAllowed(m, bsize, true, k, v, flag)
    requires |v| <= MAX_DATASIZE && |k| <= MaxKeySize(bsize) && !flag.OtherFlag?
    ensures k !in m ==> |k| + 59 <= bsize
    ensures k in m && !flag.NoOverwrite? ==> !(IsHuge(|m[k]|) && !IsHuge(|v|))
  {
  }

  predicate OpAllowed(m: Contents, bsize: nat, writable: bool, op: Op) {
    op.Put? ==> PutAllowed(m, bsize, writable, op.key, op.val, op.flag)
  }

  ghost predicate RunAllowed(m: Contents, bsize: nat, writable: bool, ops: seq<Op>) {
    forall i :: 0 <= i < |ops| ==> OpAllowed(RunAfter(m, bsize, writable, ops[..i]), bsize, writable, ops[i])
  }

  lemma RunStep(m: Contents, bsize: nat, writable: bool, ops: seq<Op>, i: nat)
    requires i < |ops|
    ensures RunAfter(m, bsize, writable, ops[..i + 1]) == OpAfter(RunAfter(m, bsize, writable, ops[..i]), bsize, writable, ops[i])
    ensures RunAfter(m, bsize, writable, ops[..0]) == m
  {
    assert ops[..i + 1][..i] == ops[..i];
  }

  lemma RunNone(m: Contents, bsize: nat, writable: bool)
    ensures RunAfter(m, bsize, writable, []) == m
  {
  }

  // ---------------------------------------------------------------- what a run amounts to

  /** The put at position i was the last one stored for the key. */
  ghost predicate LastStored(m: Contents, bsize: nat, writable: bool, ops: seq<Op>, k: Bytes, i: nat)
    requires i < |ops|
  {
    && StoredAt(m, bsize, writable, ops, k, i)
    && forall j :: i < j < |ops| ==> !StoredAt(m, bsize, writable, ops, k, j)
  }

  ghost predicate StoredAt(m: Contents, bsize: nat, writable: bool, ops: seq<Op>, k: Bytes, i: nat)
    requires i < |ops|
  {
    && ops[i].Put? && ops[i].key == k
    && PutOutcome(RunAfter(m, bsize, writable, ops[..i]), bsize, writable, k, ops[i].val, ops[i].flag).Stored?
  }

  /** After any run on an empty store a key holds the value of the last put stored for it,
      and a key without a stored put is absent. */
  lemma {:induction false} LastPutWins(bsize: nat, writable: bool, ops: seq<Op>, k: Bytes)
    ensures k in RunAfter(map[], bsize, writable, ops) <==>
      exists i :: 0 <= i < |ops| && LastStored(map[], bsize, writable, ops, k, i)
    ensures forall i :: 0 <= i < |ops| && LastStored(map[], bsize, writable, ops, k, i) ==>
      k in RunAfter(map[], bsize, writable, ops) && RunAfter(map[], bsize, writable, ops)[k] == ops[i].val
    decreases |ops|
  {
    hide PutOutcome;
    if ops != [] {
      var n := |ops| - 1;
      var pre := ops[..n];
      LastPutWins(bsize, writable, pre, k);
      forall i | 0 <= i < n
        ensures StoredAt(map[], bsize, writable, ops, k, i) <==> StoredAt(map[], bsize, writable, pre, k, i)
      {
        assert ops[..i] == pre[..i];
      }
      if StoredAt(map[], bsize, writable, ops, k, n) {
        assert LastStored(map[], bsize, writable, ops, k, n);
      } else {
        forall i | 0 <= i < n
          ensures LastStored(map[], bsize, writable, ops, k, i) <==> LastStored(map[], bsize, writable, pre, k, i)
        {
        }
        assert forall i :: 0 <= i < |ops| && LastStored(map[], bsize, writable, ops, k, i) ==> i < n;
      }
    }
  }

  /** The room a key's value has only shrinks: a key never disappears and its value never grows. */
  lemma {:induction false} ValuesShrink(m: Contents, bsize: nat, writable: bool, ops: seq<Op>, k: Bytes)
    requires k in m
    ensures k in RunAfter(m, bsize, writable, ops) && |RunAfter(m, bsize, writable, ops)[k]| <= |m[k]|
    decreases |ops|
  {
    if ops != [] {
      ValuesShrink(m, bsize, writable, ops[..|ops| - 1], k);
    }
  }

  // ---------------------------------------------------------------- runs with the file closed in between

  /** Some operations, or closing the store and opening its file again. */
  datatype Command = Work(ops: seq<Op>) | Reopen(rearrangeOnClose: bool, rearrangeOnOpen: bool)

  /** All operations of a history; closing and opening are none. */
  function AllOps(cmds: seq<Command>): seq<Op> {
    if cmds == [] then [] else
      AllOps(cmds[..|cmds| - 1]) + OpsOf(cmds[|cmds| - 1])
  }

  function OpsOf(c: Command): seq<Op> {
    if c.Work? then c.ops else []
  }

  lemma AllOpsStep(cmds: seq<Command>, i: nat)
    requires i < |cmds|
    ensures AllOps(cmds[..i + 1]) == AllOps(cmds[..i]) + OpsOf(cmds[i])
    ensures AllOps(cmds[..0]) == []
  {
    assert cmds[..i + 1][..i] == cmds[..i];
  }

  lemma {:induction false} AllOpsPrefix(cmds: seq<Command>, i: nat)
    requires i <= |cmds|
    ensures AllOps(cmds[..i]) <= AllOps(cmds)
    decreases |cmds| - i
  {
    if i < |cmds| {
      AllOpsStep(cmds, i);
      AllOpsPrefix(cmds, i + 1);
    } else {
      assert cmds[..i] == cmds;
    }
  }

  lemma {:induction false} RunAppend(m: Contents, bsize: nat, writable: bool, a: seq<Op>, b: seq<Op>)
    ensures RunAfter(m, bsize, writable, a + b) == RunAfter(RunAfter(m, bsize, writable, a), bsize, writable, b)
    decreases |b|
  {
    hide OpAfter;
    if b == [] {
      assert a + b == a;
    } else {
      var n := |b| - 1;
      RunAppend(m, bsize, writable, a, b[..n]);
      assert (a + b)[..|a| + n] == a + b[..n];
    }
  }

  /** A part of an allowed run is allowed where it starts. */
  lemma AllowedPart(m: Contents, bsize: nat, writable: bool, all: seq<Op>, a: seq<Op>, b: seq<Op>)
    requires RunAllowed(m, bsize, writable, all) && a + b <= all
    ensures RunAllowed(RunAfter(m, bsize, writable, a), bsize, writable, b)
  {
    hide OpAllowed, RunAfter;
    var m1 := RunAfter(m, bsize, writable, a);
    forall i | 0 <= i < |b|
      ensures OpAllowed(RunAfter(m1, bsize, writable, b[..i]), bsize, writable, b[i])
    {
      RunAppend(m, bsize, writable, a, b[..i]);
      assert all[..|a| + i] == a + b[..i];
      assert OpAllowed(RunAfter(m, bsize, writable, all[..|a| + i]), bsize, writable, all[|a| + i]);
    }
  }

  /** The replies to a run are those of the map. */
  ghost predicate Answers(m: Contents, bsize: nat, writable: bool, ops: seq<Op>, replies: seq<Reply>) {
    && |replies| == |ops|
    && forall i :: 0 <= i < |ops| ==> replies[i] == OpReply(RunAfter(m, bsize, writable, ops[..i]), bsize, writable, ops[i])
  }

  lemma AnswersAppend(m: Contents, bsize: nat, writable: bool, a: seq<Op>, b: seq<Op>, ra: seq<Reply>, rb: seq<Reply>)
    requires Answers(m, bsize, writable, a, ra) && Answers(RunAfter(m, bsize, writable, a), bsize, writable, b, rb)
    ensures Answers(m, bsize, writable, a + b, ra + rb)
  {
    hide OpReply, RunAfter;
    forall i | 0 <= i < |a + b|
      ensures (ra + rb)[i] == OpReply(RunAfter(m, bsize, writable, (a + b)[..i]), bsize, writable, (a + b)[i])
    {
      if i < |a| {
        assert (a + b)[..i] == a[..i];
      } else {
        RunAppend(m, bsize, writable, a, b[..i - |a|]);
        assert (a + b)[..i] == a + b[..i - |a|];
      }
    }
  }

  // ---------------------------------------------------------------- what the replies say

  datatype Was = Nothing | Value(val: Bytes)

  /** What a key holds after n operations, read off the replies: the value of the last put answered
      with Stored, or what it held at the start. */
  function HeldAfter(m: Contents, ops: seq<Op>, replies: seq<Reply>, k: Bytes, n: nat): Was
    requires n <= |ops| == |replies|
  {
    if n == 0 then (if k in m then Value(m[k]) else Nothing)
    else if ops[n - 1].Put? && ops[n - 1].key == k && replies[n - 1] == PutReply(Stored) then Value(ops[n - 1].val)
    else HeldAfter(m, ops, replies, k, n - 1)
  }

  /** The reply to a put, given what its key held. */
  ghost predicate PutMeans(bsize: nat, writable: bool, k: Bytes, v: Bytes, f: Flag, was: Was, r: Reply) {
    var sizes := |v| <= 1099511627775 && |k| + 56 <= bsize;
    && (r == PutReply(DataTooBig) <==> |v| > 1099511627775)
    && (r == PutReply(KeyTooBig) <==> |v| <= 1099511627775 && |k| + 56 > bsize)
    && (r == PutReply(BadFlag) <==> sizes && f == OtherFlag)
    && (r == PutReply(NotWritable) <==> sizes && f != OtherFlag && !writable)
    && (r == PutReply(KeyExists) <==> sizes && f == NoOverwrite && writable && was.Value?)
    && (r == PutReply(LongerThanStored) <==> sizes && f == NoFlag && writable && was.Value? && |v| > |was.val|)
    && (r == PutReply(Stored) <==> sizes && f != OtherFlag && writable && (was.Value? ==> f == NoFlag && |v| <= |was.val|))
  }

  /** The reply to a get, given what its key held. */
  ghost predicate GetMeans(n: nat, was: Was, r: Reply) {
    && (r == GetReply(NotFound) <==> was == Nothing)
    && (r == GetReply(TooSmall) <==> was.Value? && n != 0 && n < |was.val|)
    && (forall v :: r == GetReply(Found(v)) <==> was == Value(v) && (n == 0 || n >= |v|))
  }

  ghost predicate ReplyMeans(m: Contents, bsize: nat, writable: bool, ops: seq<Op>, replies: seq<Reply>, i: nat)
    requires i < |ops| == |replies|
  {
    var was := HeldAfter(m, ops, replies, ops[i].key, i);
    match ops[i]
    case Put(k, v, f) => PutMeans(bsize, writable, k, v, f, was, replies[i])
    case Get(k, n) => GetMeans(n, was, replies[i])
  }

  lemma {:induction false} HeldIs(m: Contents, bsize: nat, writable: bool, ops: seq<Op>, replies: seq<Reply>, k: Bytes, n: nat)
    requires Answers(m, bsize, writable, ops, replies) && n <= |ops|
    ensures var now := RunAfter(m, bsize, writable, ops[..n]);
      HeldAfter(m, ops, replies, k, n) == if k in now then Value(now[k]) else Nothing
  {
    hide OpAfter, OpReply, RunAfter;
    if n == 0 {
      RunNone(m, bsize, writable);
      assert ops[..0] == [];
    } else {
      RunStep(m, bsize, writable, ops, n - 1);
      HeldIs(m, bsize, writable, ops, replies, k, n - 1);
      HeldStep(RunAfter(m, bsize, writable, ops[..n - 1]), bsize, writable, ops[n - 1], k);
    }
  }

  lemma HeldStep(m: Contents, bsize: nat, writable: bool, op: Op, k: Bytes)
    ensures var now := OpAfter(m, bsize, writable, op);
      if op.Put? && op.key == k && OpReply(m, bsize, writable, op) == PutReply(Stored)
      then k in now && now[k] == op.val
      else (k in now <==> k in m) && (k in now ==> now[k] == m[k])
  {
  }

  /** Every reply of a run, in terms of the replies before it. */
  lemma RepliesMean(m: Contents, bsize: nat, writable: bool, ops: seq<Op>, replies: seq<Reply>)
    requires Answers(m, bsize, writable, ops, replies)
    ensures forall i :: 0 <= i < |ops| ==> ReplyMeans(m, bsize, writable, ops, replies, i)
  {
    hide HeldAfter, RunAfter;
    forall i | 0 <= i < |ops|
      ensures ReplyMeans(m, bsize, writable, ops, replies, i)
    {
      HeldIs(m, bsize, writable, ops, replies, ops[i].key, i);
    }
  }

  /** A put that is not answered with Stored, for one of a key that exists, leaves no trace: without
      it all other operations get the same replies. */
  lemma RefusedLeavesNoTrace(m: Contents, bsize: nat, writable: bool, ops: seq<Op>, replies: seq<Reply>, i: nat)
    requires Answers(m, bsize, writable, ops, replies) && i < |ops| && replies[i] != PutReply(Stored)
    ensures Answers(m, bsize, writable, ops[..i] + ops[i + 1..], replies[..i] + replies[i + 1..])
  {
    hide OpReply, RunAfter;
    var ops', replies' := ops[..i] + ops[i + 1..], replies[..i] + replies[i + 1..];
    forall j | 0 <= j < |ops'|
      ensures replies'[j] == OpReply(RunAfter(m, bsize, writable, ops'[..j]), bsize, writable, ops'[j])
    {
      if j < i {
        assert ops'[..j] == ops[..j];
      } else {
        NoTrace(m, bsize, writable, ops, i, j + 1, replies[i]);
        assert ops'[..j] == ops[..i] + ops[i + 1..j + 1];
      }
    }
  }

  lemma NoTrace(m: Contents, bsize: nat, writable: bool, ops: seq<Op>, i: nat, n: nat, r: Reply)
    requires i < n <= |ops| && r == OpReply(RunAfter(m, bsize, writable, ops[..i]), bsize, writable, ops[i])
    requires r != PutReply(Stored)
    ensures RunAfter(m, bsize, writable, ops[..i] + ops[i + 1..n]) == RunAfter(m, bsize, writable, ops[..n])
  {
    RunStep(m, bsize, writable, ops, i);
    RunAppend(m, bsize, writable, ops[..i], ops[i + 1..n]);
    RunAppend(m, bsize, writable, ops[..i + 1], ops[i + 1..n]);
    assert ops[..i + 1] + ops[i + 1..n] == ops[..n];
  }
}
