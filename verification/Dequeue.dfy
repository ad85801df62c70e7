/** Draining the per-UE queues: dequeue_ue_msgs and dequeue_ue_slot_msgs of src/nfapi_pnf.c.
    One model with the air interface as a parameter serves both. */
module Dequeue {
  import opened Wrappers
  import opened Words
  import opened Frames
  import opened UplinkMessages
  import opened RingQueue

  /** MAX_SUBFRAME_MSGS and MAX_SLOT_MSGS */
  const MAX_MSGS := 8

  /** The value of the master frame word before the first packet has been seen. */
  const NO_MASTER: uint16 := 0xFFFF

  /** How late, in units, a packet may be. */
  function Window(air: Air): nat { if air.Lte? then 200 else 400 }

  /** What the loop does with a packet that get_queue returned. Discard and Keep carry the
      master frame word from then on. */
  datatype Verdict = Discard(master: uint16) | Keep(master: uint16) | PushBack

  function Judge(air: Air, tx: uint16, master: uint16, kept: nat, m: Message): Verdict {
    if !WellFormed(air, m) then Discard(master)
    else
      var word := FrameWord(air, m).value;
      var now := if master == NO_MASTER then word else master;
      if now != word then PushBack
      else if air.Delta(tx, word) > Window(air) then Discard(now)
      else if kept == MAX_MSGS then Discard(now)
      else Keep(now)
  }

  /** One UE's share of a dequeue call: the queue it leaves, the master word it leaves, the
      packets it batched and freed in order, and whether it stopped at another frame. */
  datatype Drained = Drained(queue: seq<Message>, master: uint16, row: seq<Message>,
                             freed: seq<Message>, blocked: bool)

  function DrainUe(air: Air, tx: uint16, q: seq<Message>, master: uint16, row: seq<Message>,
                   freed: seq<Message>): Drained
    decreases |q|
  {
    if q == [] then Drained([], master, row, freed, false)
    else
      match Judge(air, tx, master, |row|, q[0])
      case Discard(now) => DrainUe(air, tx, q[1..], now, row, freed + [q[0]])
      case Keep(now) => DrainUe(air, tx, q[1..], now, row + [q[0]], freed)
      case PushBack => Drained(q, master, row, freed, true)
  }

  /** The results of the first n UEs, each starting from the master word the one before it
      left. */
  function DrainMany(air: Air, tx: uint16, qs: seq<seq<Message>>, n: nat): (r: seq<Drained>)
    requires n <= |qs|
    ensures |r| == n
  {
    if n == 0 then []
    else
      var r := DrainMany(air, tx, qs, n - 1);
      r + [DrainUe(air, tx, qs[n - 1], MasterAfter(r), [], [])]
  }

  function MasterAfter(r: seq<Drained>): uint16 {
    if r == [] then NO_MASTER else r[|r| - 1].master
  }

  function Drain(air: Air, tx: uint16, qs: seq<seq<Message>>): (r: seq<Drained>)
    ensures |r| == |qs|
  {
    DrainMany(air, tx, qs, |qs|)
  }

  lemma DrainManyNext(air: Air, tx: uint16, qs: seq<seq<Message>>, i: nat)
    requires i < |qs|
    ensures var r := DrainMany(air, tx, qs, i);
      var d := DrainUe(air, tx, qs[i], MasterAfter(r), [], []);
      DrainMany(air, tx, qs, i + 1) == r + [d] && MasterAfter(r + [d]) == d.master
  {
  }

  // ---- What one UE's share does -----------------------------------------------------------

  /** s is an order-preserving merge of a and b. */
  ghost predicate Merge<T>(s: seq<T>, a: seq<T>, b: seq<T>)
    decreases |s|
  {
    if s == [] then a == [] && b == []
    else
      var x, rest := s[|s| - 1], s[..|s| - 1];
      || (a != [] && a[|a| - 1] == x && Merge(rest, a[..|a| - 1], b))
      || (b != [] && b[|b| - 1] == x && Merge(rest, a, b[..|b| - 1]))
  }

  lemma MergeExtend<T>(s: seq<T>, a: seq<T>, b: seq<T>, x: T)
    requires Merge(s, a, b)
    ensures Merge(s + [x], a + [x], b) && Merge(s + [x], a, b + [x])
  {
    assert (s + [x])[..|s|] == s && (a + [x])[..|a|] == a && (b + [x])[..|b|] == b;
  }

  function FirstEight(s: seq<Message>): seq<Message> {
    if |s| <= 8 then s else s[..8]
  }

  function PastEight(s: seq<Message>): seq<Message> {
    if |s| <= 8 then [] else s[8..]
  }

  /** A packet that the loop keeps if there is room. */
  predicate Good(air: Air, tx: uint16, m: Message) {
    WellFormed(air, m) && air.Delta(tx, FrameWord(air, m).value) <= Window(air)
  }

  function GoodOnes(air: Air, tx: uint16, s: seq<Message>): seq<Message> {
    if s == [] then []
    else GoodOnes(air, tx, s[..|s| - 1]) + if Good(air, tx, s[|s| - 1]) then [s[|s| - 1]] else []
  }

  /** The packets that are not good, or come after the eighth good one. */
  function Surplus(air: Air, tx: uint16, s: seq<Message>): seq<Message> {
    if s == [] then []
    else
      var before, m := s[..|s| - 1], s[|s| - 1];
      Surplus(air, tx, before) + if Good(air, tx, m) && |GoodOnes(air, tx, before)| < 8 then [] else [m]
  }

  /** The batched packets are the first eight good ones of those removed, and the others are
      freed in order. */
  ghost predicate Accounted(air: Air, tx: uint16, done: seq<Message>, row: seq<Message>, freed: seq<Message>) {
    && row == FirstEight(GoodOnes(air, tx, done))
    && freed == Surplus(air, tx, done)
    && Merge(done, row, freed)
  }

  /** The packets a drain removed from q. */
  function Removed(q: seq<Message>, d: Drained): seq<Message> {
    q[..if |d.queue| <= |q| then |q| - |d.queue| else 0]
  }

  lemma SuffixStep(q: seq<Message>, d: Drained)
    requires q != [] && |d.queue| < |q| && q[1..] == Removed(q[1..], d) + d.queue
    ensures q == Removed(q, d) + d.queue
  {
    var n := |q| - |d.queue|;
    assert q[n..] == q[1..][n - 1..] == d.queue;
  }

  /** A drain leaves a suffix of the queue, which is empty unless it stopped early. */
  lemma {:induction false} DrainUeSuffix(air: Air, tx: uint16, q: seq<Message>, master: uint16,
                                         row: seq<Message>, freed: seq<Message>)
    ensures var d := DrainUe(air, tx, q, master, row, freed);
      && |d.queue| <= |q| && q == Removed(q, d) + d.queue
      && (d.blocked <==> d.queue != [])
    decreases |q|
  {
    var d := DrainUe(air, tx, q, master, row, freed);
    if q != [] {
      var v := Judge(air, tx, master, |row|, q[0]);
      if v.Discard? {
        DrainUeSuffix(air, tx, q[1..], v.master, row, freed + [q[0]]);
        SuffixStep(q, d);
      } else if v.Keep? {
        DrainUeSuffix(air, tx, q[1..], v.master, row + [q[0]], freed);
        SuffixStep(q, d);
      }
    }
  }

  lemma JudgeMaster(air: Air, tx: uint16, master: uint16, kept: nat, m: Message)
    ensures var v := Judge(air, tx, master, kept, m);
      && (v.PushBack? ==> WellFormed(air, m) && master != NO_MASTER && FrameWord(air, m).value != master)
      && (!v.PushBack? && master != NO_MASTER ==> v.master == master)
  {
  }

  /** A drain that stops early stops at a well-formed packet of another frame than the master,
      and it never changes a master word that is set. */
  lemma {:induction false} DrainUeBlocked(air: Air, tx: uint16, q: seq<Message>, master: uint16,
                                          row: seq<Message>, freed: seq<Message>)
    ensures var d := DrainUe(air, tx, q, master, row, freed);
      && (d.blocked ==> d.queue != [] && WellFormed(air, d.queue[0]) && d.master != NO_MASTER
                        && FrameWord(air, d.queue[0]).value != d.master)
      && (master != NO_MASTER ==> d.master == master)
    decreases |q|
  {
    if q != [] {
      var v := Judge(air, tx, master, |row|, q[0]);
      JudgeMaster(air, tx, master, |row|, q[0]);
      if v.Discard? {
        DrainUeBlocked(air, tx, q[1..], v.master, row, freed + [q[0]]);
      } else if v.Keep? {
        DrainUeBlocked(air, tx, q[1..], v.master, row + [q[0]], freed);
      }
    }
  }

  lemma {:induction false} GoodOnesGood(air: Air, tx: uint16, s: seq<Message>)
    ensures forall m :: m in GoodOnes(air, tx, s) ==> Good(air, tx, m) && m in s
  {
    if s != [] {
      GoodOnesGood(air, tx, s[..|s| - 1]);
    }
  }

  lemma GoodSnoc(air: Air, tx: uint16, s: seq<Message>, m: Message)
    ensures GoodOnes(air, tx, s + [m]) == GoodOnes(air, tx, s) + if Good(air, tx, m) then [m] else []
    ensures Surplus(air, tx, s + [m]) ==
      Surplus(air, tx, s) + if Good(air, tx, m) && |GoodOnes(air, tx, s)| < MAX_MSGS then [] else [m]
  {
    assert (s + [m])[..|s|] == s;
  }

  /** Taking one more packet off the queue keeps the account. */
  lemma JudgeAccounts(air: Air, tx: uint16, master: uint16, done: seq<Message>, row: seq<Message>,
                      freed: seq<Message>, m: Message)
    requires Accounted(air, tx, done, row, freed)
    ensures var v := Judge(air, tx, master, |row|, m);
      && (v.Discard? ==> Accounted(air, tx, done + [m], row, freed + [m]))
      && (v.Keep? ==> Accounted(air, tx, done + [m], row + [m], freed))
  {
    MergeExtend(done, row, freed, m);
    GoodSnoc(air, tx, done, m);
    var v := Judge(air, tx, master, |row|, m);
    assert v.Keep? ==> Good(air, tx, m) && |row| < MAX_MSGS;
    assert v.Discard? ==> !Good(air, tx, m) || |row| == MAX_MSGS;
  }

  lemma RemovedHead(done: seq<Message>, q: seq<Message>, d: Drained)
    requires |d.queue| < |q|
    ensures done + Removed(q, d) == done + [q[0]] + Removed(q[1..], d)
  {
    var n := |q| - |d.queue|;
    assert q[..n] == [q[0]] + q[1..][..n - 1];
  }

  /** A drain accounts for every packet that it removes. */
  lemma {:induction false} DrainUeAccounts(air: Air, tx: uint16, done: seq<Message>, q: seq<Message>,
                                           master: uint16, row: seq<Message>, freed: seq<Message>)
    requires Accounted(air, tx, done, row, freed)
    ensures var d := DrainUe(air, tx, q, master, row, freed);
      Accounted(air, tx, done + Removed(q, d), d.row, d.freed)
    decreases |q|
  {
    var d := DrainUe(air, tx, q, master, row, freed);
    if q == [] || Judge(air, tx, master, |row|, q[0]).PushBack? {
      assert done + Removed(q, d) == done;
    } else {
      var verdict := Judge(air, tx, master, |row|, q[0]);
      JudgeAccounts(air, tx, master, done, row, freed, q[0]);
      if verdict.Discard? {
        DrainUeSuffix(air, tx, q[1..], verdict.master, row, freed + [q[0]]);
        DrainUeAccounts(air, tx, done + [q[0]], q[1..], verdict.master, row, freed + [q[0]]);
      } else {
        DrainUeSuffix(air, tx, q[1..], verdict.master, row + [q[0]], freed);
        DrainUeAccounts(air, tx, done + [q[0]], q[1..], verdict.master, row + [q[0]], freed);
      }
      RemovedHead(done, q, d);
    }
  }

  // ---- One frame per call -----------------------------------------------------------------

  /** The frame word of the first well-formed packet. */
  function FirstWord(air: Air, s: seq<Message>): Option<uint16> {
    if s == [] then None
    else
      var r, m := FirstWord(air, s[..|s| - 1]), s[|s| - 1];
      if r.Some? then r
      else if WellFormed(air, m) then FrameWord(air, m)
      else None
  }

  ghost predicate AllWord(air: Air, s: seq<Message>, word: uint16) {
    forall m :: m in s && WellFormed(air, m) ==> FrameWord(air, m) == Some(word)
  }

  ghost predicate HasWord(air: Air, s: seq<Message>, word: uint16) {
    exists m :: m in s && WellFormed(air, m) && FrameWord(air, m) == Some(word)
  }

  /** All well-formed packets of s belong to one frame. */
  ghost predicate OneFrame(air: Air, s: seq<Message>) {
    exists word :: AllWord(air, s, word)
  }

  lemma {:induction false} FirstWordConcat(air: Air, s: seq<Message>, t: seq<Message>)
    ensures FirstWord(air, s + t) == if FirstWord(air, s).Some? then FirstWord(air, s) else FirstWord(air, t)
    decreases |t|
  {
    if t == [] {
      assert s + t == s;
    } else {
      assert (s + t)[..|s + t| - 1] == s + t[..|t| - 1];
      FirstWordConcat(air, s, t[..|t| - 1]);
    }
  }

  lemma {:induction false} FirstWordMember(air: Air, s: seq<Message>)
    ensures FirstWord(air, s) == None ==> forall m :: m in s ==> !WellFormed(air, m)
    ensures FirstWord(air, s).Some? ==> HasWord(air, s, FirstWord(air, s).value)
  {
    if s != [] {
      FirstWordMember(air, s[..|s| - 1]);
      assert s == s[..|s| - 1] + [s[|s| - 1]];
    }
  }

  /** How the master word relates to the packets that have been removed so far. */
  ghost predicate Mastered(air: Air, done: seq<Message>, master: uint16) {
    && (master == NO_MASTER ==> AllWord(air, done, NO_MASTER))
    && (master != NO_MASTER ==> HasWord(air, done, master))
    && (master != NO_MASTER && FirstWord(air, done) != Some(NO_MASTER) ==> AllWord(air, done, master))
  }

  lemma JudgeMastered(air: Air, tx: uint16, master: uint16, kept: nat, done: seq<Message>, m: Message)
    requires Mastered(air, done, master)
    ensures var v := Judge(air, tx, master, kept, m);
      !v.PushBack? ==> Mastered(air, done + [m], v.master)
  {
    var v := Judge(air, tx, master, kept, m);
    if !v.PushBack? {
      assert (done + [m])[..|done|] == done;
      FirstWordMember(air, done);
      if v.master != NO_MASTER {
        if master == NO_MASTER {
          assert m in done + [m];
        } else {
          var h :| h in done && WellFormed(air, h) && FrameWord(air, h) == Some(master);
          assert h in done + [m];
        }
      }
    }
  }

  lemma {:induction false} DrainUeMastered(air: Air, tx: uint16, done: seq<Message>, q: seq<Message>,
                                           master: uint16, row: seq<Message>, freed: seq<Message>)
    requires Mastered(air, done, master)
    ensures var d := DrainUe(air, tx, q, master, row, freed);
      Mastered(air, done + Removed(q, d), d.master)
    decreases |q|
  {
    var d := DrainUe(air, tx, q, master, row, freed);
    if q == [] || Judge(air, tx, master, |row|, q[0]).PushBack? {
      assert done + Removed(q, d) == done;
    } else {
      var v := Judge(air, tx, master, |row|, q[0]);
      JudgeMastered(air, tx, master, |row|, done, q[0]);
      if v.Keep? {
        DrainUeSuffix(air, tx, q[1..], v.master, row + [q[0]], freed);
        DrainUeMastered(air, tx, done + [q[0]], q[1..], v.master, row + [q[0]], freed);
      } else {
        DrainUeSuffix(air, tx, q[1..], v.master, row, freed + [q[0]]);
        DrainUeMastered(air, tx, done + [q[0]], q[1..], v.master, row, freed + [q[0]]);
      }
      RemovedHead(done, q, d);
    }
  }

  /** All queued packets, in the order in which the loop visits them. */
  function Flat(qs: seq<seq<Message>>, n: nat): seq<Message>
    requires n <= |qs|
  {
    if n == 0 then [] else Flat(qs, n - 1) + qs[n - 1]
  }

  /** The packets that the first n UEs' drains removed, in the same order. */
  function Scanned(qs: seq<seq<Message>>, r: seq<Drained>, n: nat): seq<Message>
    requires n <= |qs| && n <= |r|
  {
    if n == 0 then [] else Scanned(qs, r, n - 1) + Removed(qs[n - 1], r[n - 1])
  }

  lemma {:induction false} ScannedPrefix(qs: seq<seq<Message>>, r: seq<Drained>, d: Drained, n: nat)
    requires n <= |qs| && n <= |r|
    ensures Scanned(qs, r + [d], n) == Scanned(qs, r, n)
  {
    if n > 0 {
      ScannedPrefix(qs, r, d, n - 1);
    }
  }

  lemma ScannedNext(qs: seq<seq<Message>>, r: seq<Drained>, d: Drained)
    requires |r| < |qs|
    ensures Scanned(qs, r + [d], |r| + 1) == Scanned(qs, r, |r|) + Removed(qs[|r|], d)
    ensures MasterAfter(r + [d]) == d.master
  {
    ScannedPrefix(qs, r, d, |r|);
  }

  /** What the first n drains removed, against what was queued: the master word covers it, it
      starts with the same frame, and it is everything while there is no master. */
  ghost predicate ScannedWell(air: Air, done: seq<Message>, flat: seq<Message>, master: uint16) {
    && Mastered(air, done, master)
    && (master == NO_MASTER ==> done == flat)
    && FirstWord(air, done) == FirstWord(air, flat)
    && (forall m :: m in done ==> m in flat)
  }

  lemma FirstWordStep(air: Air, done: seq<Message>, flat: seq<Message>, gone: seq<Message>, left: seq<Message>)
    requires FirstWord(air, done) == FirstWord(air, flat)
    requires FirstWord(air, done + gone).Some? || left == []
    ensures FirstWord(air, done + gone) == FirstWord(air, flat + (gone + left))
  {
    FirstWordConcat(air, done, gone);
    FirstWordConcat(air, flat, gone + left);
    FirstWordConcat(air, gone, left);
    assert left == [] ==> gone + left == gone;
  }

  lemma MasteredStep(air: Air, tx: uint16, done: seq<Message>, flat: seq<Message>, q: seq<Message>, master: uint16)
    requires ScannedWell(air, done, flat, master)
    ensures var d := DrainUe(air, tx, q, master, [], []);
      ScannedWell(air, done + Removed(q, d), flat + q, d.master)
  {
    var d := DrainUe(air, tx, q, master, [], []);
    var gone := Removed(q, d);
    DrainUeSuffix(air, tx, q, master, [], []);
    DrainUeBlocked(air, tx, q, master, [], []);
    DrainUeMastered(air, tx, done, q, master, [], []);
    FirstWordMember(air, done + gone);
    assert d.queue == [] ==> gone == q;
    FirstWordStep(air, done, flat, gone, d.queue);
  }

  lemma {:induction false} DrainManyMastered(air: Air, tx: uint16, qs: seq<seq<Message>>, n: nat)
    requires n <= |qs|
    ensures var r := DrainMany(air, tx, qs, n);
      ScannedWell(air, Scanned(qs, r, n), Flat(qs, n), MasterAfter(r))
  {
    if n > 0 {
      DrainManyMastered(air, tx, qs, n - 1);
      var r := DrainMany(air, tx, qs, n - 1);
      MasteredStep(air, tx, Scanned(qs, r, n - 1), Flat(qs, n - 1), qs[n - 1], MasterAfter(r));
      ScannedNext(qs, r, DrainUe(air, tx, qs[n - 1], MasterAfter(r), [], []));
    }
  }

  /** One dequeue call removes well-formed packets of a single frame exactly when the first
      well-formed packet does not carry the word 0xFFFF, which the source also uses for "no
      master yet", or when all of them carry it. */
  lemma DequeueOneFrame(air: Air, tx: uint16, qs: seq<seq<Message>>)
    ensures OneFrame(air, Scanned(qs, Drain(air, tx, qs), |qs|))
      <==> FirstWord(air, Flat(qs, |qs|)) != Some(NO_MASTER) || AllWord(air, Flat(qs, |qs|), NO_MASTER)
  {
    var r, flat := Drain(air, tx, qs), Flat(qs, |qs|);
    var done := Scanned(qs, r, |qs|);
    DrainManyMastered(air, tx, qs, |qs|);
    FirstWordMember(air, done);
    if FirstWord(air, flat) != Some(NO_MASTER) {
      assert AllWord(air, done, MasterAfter(r));
    } else if AllWord(air, flat, NO_MASTER) {
      assert AllWord(air, done, NO_MASTER);
    } else {
      assert MasterAfter(r) != NO_MASTER;
      TwoWords(air, done, NO_MASTER, MasterAfter(r));
    }
  }

  /** What a master word says about whether the removed packets belong to one frame. */
  lemma MasteredOneFrame(air: Air, done: seq<Message>, master: uint16)
    requires Mastered(air, done, master)
    ensures OneFrame(air, done)
      <==> FirstWord(air, done) != Some(NO_MASTER) || AllWord(air, done, NO_MASTER)
  {
    FirstWordMember(air, done);
    if master == NO_MASTER {
      assert AllWord(air, done, NO_MASTER);
    } else if FirstWord(air, done) != Some(NO_MASTER) {
      assert AllWord(air, done, master);
    } else {
      TwoWords(air, done, NO_MASTER, master);
    }
  }

  lemma TwoWords(air: Air, s: seq<Message>, a: uint16, b: uint16)
    requires HasWord(air, s, a) && HasWord(air, s, b) && a != b
    ensures !OneFrame(air, s)
  {
    var m :| m in s && WellFormed(air, m) && FrameWord(air, m) == Some(a);
    forall word
      ensures !AllWord(air, s, word)
    {
      if word == a {
        var n :| n in s && WellFormed(air, n) && FrameWord(air, n) == Some(b);
      }
    }
  }

  // ---- The whole call ---------------------------------------------------------------------

  lemma {:induction false} DrainAt(air: Air, tx: uint16, qs: seq<seq<Message>>, n: nat, i: nat)
    requires i < n <= |qs|
    ensures var r := DrainMany(air, tx, qs, n);
      r[..i] == DrainMany(air, tx, qs, i) && r[i] == DrainUe(air, tx, qs[i], MasterAfter(r[..i]), [], [])
  {
    if i < n - 1 {
      DrainAt(air, tx, qs, n - 1, i);
      assert DrainMany(air, tx, qs, n)[..i] == DrainMany(air, tx, qs, n - 1)[..i];
    } else {
      assert DrainMany(air, tx, qs, n)[..i] == DrainMany(air, tx, qs, i);
    }
  }

  /** For each UE, the call leaves a suffix of its queue, empty unless it starts with a
      well-formed packet of another frame, and accounts for every packet that it removed. */
  lemma DequeueAccounts(air: Air, tx: uint16, qs: seq<seq<Message>>, i: nat)
    requires i < |qs|
    ensures var d := Drain(air, tx, qs)[i];
      && qs[i] == Removed(qs[i], d) + d.queue
      && Accounted(air, tx, Removed(qs[i], d), d.row, d.freed)
      && (d.blocked <==> d.queue != [])
      && (d.blocked ==>
          WellFormed(air, d.queue[0]) && FrameWord(air, d.queue[0]) != Some(MasterAfter(Drain(air, tx, qs))))
  {
    DrainAt(air, tx, qs, |qs|, i);
    var r := Drain(air, tx, qs);
    DrainUeSuffix(air, tx, qs[i], MasterAfter(r[..i]), [], []);
    DrainUeBlocked(air, tx, qs[i], MasterAfter(r[..i]), [], []);
    DrainUeAccounts(air, tx, [], qs[i], MasterAfter(r[..i]), [], []);
    assert [] + Removed(qs[i], r[i]) == Removed(qs[i], r[i]);
    if r[i].blocked {
      MasterStays(air, tx, qs, |qs|, i);
    }
  }

  lemma {:induction false} MasterStays(air: Air, tx: uint16, qs: seq<seq<Message>>, n: nat, i: nat)
    requires i < n <= |qs| && DrainMany(air, tx, qs, n)[i].master != NO_MASTER
    ensures MasterAfter(DrainMany(air, tx, qs, n)) == DrainMany(air, tx, qs, n)[i].master
  {
    if i < n - 1 {
      MasterStays(air, tx, qs, n - 1, i);
      DrainUeBlocked(air, tx, qs[n - 1], MasterAfter(DrainMany(air, tx, qs, n - 1)), [], []);
    }
  }

  /** A batch can mix frames: one UE that queued a packet with frame word 0xFFFF and then one
      for subframe 0.1, in any subframe for which that is in the window. */
  lemma MixedBatchExists(tx: uint16)
    requires Lte.Delta(tx, 1) <= Window(Lte)
    ensures var header := [0, 0, 0, 0x86] + seq(12, _ => 0);
      var first := Message(Handle(0, 0), header + [0xFF, 0xFF]);
      var second := Message(Handle(0, 1), header + [0, 1]);
      && Drain(Lte, tx, [[first, second]])[0].row == [first, second]
      && FrameWord(Lte, first) != FrameWord(Lte, second)
  {
    var header: seq<byte> := [0, 0, 0, 0x86] + seq(12, _ => 0);
    var first := Message(Handle(0, 0), header + [0xFF, 0xFF]);
    var second := Message(Handle(0, 1), header + [0, 1]);
    assert FrameWord(Lte, first) == Some(0xFFFF) && FrameWord(Lte, second) == Some(1);
    var qs := [[first, second]];
    assert DrainMany(Lte, tx, qs, 0) == [];
    assert Judge(Lte, tx, NO_MASTER, 0, first) == Keep(0xFFFF);
    assert Judge(Lte, tx, 0xFFFF, 1, second) == Keep(1);
    assert [first, second][1..] == [second] && [second][1..] == [];
    assert DrainUe(Lte, tx, [], 1, [first] + [second], []).row == [first, second];
    assert DrainUe(Lte, tx, [second], 0xFFFF, [first], []).row == [first, second];
    assert [] + [first] == [first];
    assert DrainUe(Lte, tx, [first, second], NO_MASTER, [], []).row == [first, second];
  }

  // ---- Progress ---------------------------------------------------------------------------

  function Total(qs: seq<seq<Message>>, n: nat): nat
    requires n <= |qs|
  {
    if n == 0 then 0 else Total(qs, n - 1) + |qs[n - 1]|
  }

  /** The queues that a dequeue call leaves. */
  function Left(r: seq<Drained>): (qs: seq<seq<Message>>)
    ensures |qs| == |r| && forall i :: 0 <= i < |r| ==> qs[i] == r[i].queue
  {
    seq(|r|, i requires 0 <= i < |r| => r[i].queue)
  }

  lemma {:induction false} TotalPrefix(qs: seq<seq<Message>>, q: seq<Message>, n: nat)
    requires n <= |qs|
    ensures Total(qs + [q], n) == Total(qs, n)
  {
    if n > 0 {
      TotalPrefix(qs, q, n - 1);
    }
  }

  lemma {:induction false} TotalZero(qs: seq<seq<Message>>, n: nat)
    requires n <= |qs| && Total(qs, n) == 0
    ensures Flat(qs, n) == []
  {
    if n > 0 {
      TotalZero(qs, n - 1);
    }
  }

  lemma FirstPacketLeaves(air: Air, tx: uint16, q: seq<Message>)
    requires q != []
    ensures |DrainUe(air, tx, q, NO_MASTER, [], []).queue| < |q|
  {
    var v := Judge(air, tx, NO_MASTER, 0, q[0]);
    if v.Keep? {
      DrainUeSuffix(air, tx, q[1..], v.master, [] + [q[0]], []);
    } else {
      DrainUeSuffix(air, tx, q[1..], v.master, [], [] + [q[0]]);
    }
  }

  /** A drain that starts with no master empties its queue at least in part. */
  lemma DrainShrinks(air: Air, tx: uint16, q: seq<Message>, master: uint16)
    ensures var d := DrainUe(air, tx, q, master, [], []);
      |d.queue| <= |q| && (master == NO_MASTER && q != [] ==> |d.queue| < |q|)
  {
    DrainUeSuffix(air, tx, q, master, [], []);
    if master == NO_MASTER && q != [] {
      FirstPacketLeaves(air, tx, q);
    }
  }

  lemma {:induction false} NoMasterYet(air: Air, tx: uint16, qs: seq<seq<Message>>, n: nat)
    requires n <= |qs| && Total(qs, n) == 0
    ensures MasterAfter(DrainMany(air, tx, qs, n)) == NO_MASTER
  {
    if n > 0 {
      NoMasterYet(air, tx, qs, n - 1);
      assert qs[n - 1] == [];
    }
  }

  lemma TotalNext(r: seq<Drained>, d: Drained)
    ensures Total(Left(r + [d]), |r| + 1) == Total(Left(r), |r|) + |d.queue|
  {
    assert Left(r + [d]) == Left(r) + [d.queue];
    TotalPrefix(Left(r), d.queue, |r|);
  }

  lemma {:induction false} DrainManyShrinks(air: Air, tx: uint16, qs: seq<seq<Message>>, n: nat)
    requires n <= |qs|
    ensures var left := Left(DrainMany(air, tx, qs, n));
      Total(left, n) <= Total(qs, n) && (Total(qs, n) > 0 ==> Total(left, n) < Total(qs, n))
  {
    hide DrainMany, DrainUe, MasterAfter, Left;
    if n > 0 {
      var r, q := DrainMany(air, tx, qs, n - 1), qs[n - 1];
      var d := DrainUe(air, tx, q, MasterAfter(r), [], []);
      DrainManyShrinks(air, tx, qs, n - 1);
      DrainManyNext(air, tx, qs, n - 1);
      DrainShrinks(air, tx, q, MasterAfter(r));
      TotalNext(r, d);
      if Total(qs, n - 1) == 0 {
        NoMasterYet(air, tx, qs, n - 1);
      }
    }
  }

  /** With no packets arriving, every call takes at least one packet off a backlog. */
  lemma DequeueProgress(air: Air, tx: uint16, qs: seq<seq<Message>>)
    requires exists i :: 0 <= i < |qs| && qs[i] != []
    ensures Total(Left(Drain(air, tx, qs)), |qs|) < Total(qs, |qs|)
  {
    DrainManyShrinks(air, tx, qs, |qs|);
    if Total(qs, |qs|) == 0 {
      TotalZero(qs, |qs|);
      var i :| 0 <= i < |qs| && qs[i] != [];
      FlatContains(qs, |qs|, i, qs[i][0]);
    }
  }

  lemma {:induction false} FlatContains(qs: seq<seq<Message>>, n: nat, i: nat, m: Message)
    requires i < n <= |qs| && m in qs[i]
    ensures m in Flat(qs, n)
  {
    if i < n - 1 {
      FlatContains(qs, n - 1, i, m);
    }
  }

  /** The queues after one call for each transmit word of txs. */
  function DrainTimes(air: Air, txs: seq<uint16>, qs: seq<seq<Message>>): (left: seq<seq<Message>>)
    ensures |left| == |qs|
  {
    if txs == [] then qs else DrainTimes(air, txs[1..], Left(Drain(air, txs[0], qs)))
  }

  /** A backlog of n packets is gone after n calls. */
  lemma {:induction false} BacklogDrains(air: Air, txs: seq<uint16>, qs: seq<seq<Message>>)
    ensures |txs| >= Total(qs, |qs|) ==> Total(DrainTimes(air, txs, qs), |qs|) == 0
    decreases |txs|
  {
    if txs != [] {
      DrainManyShrinks(air, txs[0], qs, |qs|);
      BacklogDrains(air, txs[1..], Left(Drain(air, txs[0], qs)));
    }
  }
}
