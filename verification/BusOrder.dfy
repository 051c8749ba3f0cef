/** Order independence: the bus state after the requests of one phase does not depend on how different masters' requests
    are interleaved. */
module BusOrder {
  import opened Words
  import opened Config
  import opened Bus
  import opened BusRun

  datatype Ask = Ask(master: nat, msg: Msg)

  predicate Known(s: Setup, es: seq<Ask>) {
    forall i :: 0 <= i < |es| ==> es[i].master < s.masters
  }

  /** The bus without its history. */
  function Forget(b: State): State {
    b.(log := [])
  }

  /** One request, the history aside; `None` if it faults the session. */
  function Asked(s: Setup, b: State, a: Ask): (r: Option<State>)
    requires Shaped(s, b) && a.master < s.masters
    ensures r.Some? ==> Shaped(s, r.value)
  {
    match Request(s, b, a.master, a.msg)
    case Err(_) => None
    case Ok(n) =>
      RequestShaped(s, b, a.master, a.msg);
      Some(Forget(n))
  }

  /** The requests in order. */
  function AskedAll(s: Setup, b: State, es: seq<Ask>): (r: Option<State>)
    requires Shaped(s, b) && Known(s, es)
    ensures r.Some? ==> Shaped(s, r.value)
    decreases |es|
  {
    if es == [] then Some(b)
    else
      var n := Asked(s, b, es[0]);
      if n.None? then None else AskedAll(s, n.value, es[1..])
  }

  // ----- Two requests -----

  /** What a request of one master leaves of another's: its liveness. */
  lemma LiveAside(s: Setup, b: State, a: Ask, m: nat, txn: Long)
    requires Shaped(s, b) && a.master < s.masters && m < s.masters && m != a.master && Asked(s, b, a).Some?
    ensures IsLive(s, Asked(s, b, a).value, m, txn) <==> IsLive(s, b, m, txn)
  {
    hide Queued, Route;
    var n := Asked(s, b, a).value;
    assert a.msg.Len() > 0;
    forall r | 0 <= r < |b.regions| ensures LiveIn(n.regions[r], m, txn) <==> LiveIn(b.regions[r], m, txn) {
    }
  }

  /** What a request that does not fault does to the bus. */
  function Effect(s: Setup, b: State, a: Ask): (n: State)
    requires Shaped(s, b) && a.master < s.masters && a.msg.Len() > 0
    ensures Shaped(s, n)
  {
    match Route(s, a.msg)
    case None => Forget(b)
    case Some(r) => Forget(b).(regions := b.regions[r := Push(b.regions[r], a.master, Local(s, a.msg, r))], wakes := b.wakes + 1)
  }

  /** A request at its offset in region `r`. */
  function Local(s: Setup, msg: Msg, r: nat): Msg
    requires msg.Len() > 0 && Route(s, msg) == Some(r)
  {
    msg.At(msg.addr - s.windows[r].base)
  }

  lemma AskedIs(s: Setup, b: State, a: Ask)
    requires Shaped(s, b) && a.master < s.masters
    ensures Asked(s, b, a).Some? <==> !IsLive(s, b, a.master, a.msg.txn) && a.msg.Len() > 0
    ensures Asked(s, b, a).Some? ==> Asked(s, b, a).value == Effect(s, b, a)
  {
  }

  lemma PushesCommute(r: Region, m: nat, x: Msg, k: nat, y: Msg)
    requires m < |r.queues| && k < |r.queues| && m != k
    ensures Push(Push(r, m, x), k, y) == Push(Push(r, k, y), m, x)
  {
    assert r.queues[m := r.queues[m] + [x]][k := r.queues[k] + [y]] == r.queues[k := r.queues[k] + [y]][m := r.queues[m] + [x]];
  }

  lemma UpdatesCommute(rs: seq<Region>, i: nat, x: Region, j: nat, y: Region)
    requires i < |rs| && j < |rs| && i != j
    ensures rs[i := x][j := y] == rs[j := y][i := x]
  {
  }

  lemma EffectsCommute(s: Setup, b: State, x: Ask, y: Ask)
    requires Shaped(s, b) && x.master < s.masters && y.master < s.masters && x.master != y.master && x.msg.Len() > 0 && y.msg.Len() > 0
    ensures Effect(s, Effect(s, b, x), y) == Effect(s, Effect(s, b, y), x)
  {
    hide Push, Route, Local;
    if Route(s, x.msg).Some? && Route(s, y.msg).Some? {
      var p, q := Route(s, x.msg).value, Route(s, y.msg).value;
      var xm, ym := Local(s, x.msg, p), Local(s, y.msg, q);
      if p == q {
        PushesCommute(b.regions[p], x.master, xm, y.master, ym);
      } else {
        UpdatesCommute(b.regions, p, Push(b.regions[p], x.master, xm), q, Push(b.regions[q], y.master, ym));
      }
    }
  }

  /** Requests of two masters commute. */
  lemma AsksCommute(s: Setup, b: State, x: Ask, y: Ask)
    requires Shaped(s, b) && x.master < s.masters && y.master < s.masters && x.master != y.master
    ensures AskedAll(s, b, [x, y]) == AskedAll(s, b, [y, x])
  {
    hide AskedAll, Asked, IsLive, Effect;
    TwoAsks(s, b, x, y);
    TwoAsks(s, b, y, x);
    AskedIs(s, b, x);
    AskedIs(s, b, y);
    if Asked(s, b, x).Some? {
      LiveAside(s, b, x, y.master, y.msg.txn);
      AskedIs(s, Asked(s, b, x).value, y);
    }
    if Asked(s, b, y).Some? {
      LiveAside(s, b, y, x.master, x.msg.txn);
      AskedIs(s, Asked(s, b, y).value, x);
    }
    if Asked(s, b, x).Some? && Asked(s, b, y).Some? {
      EffectsCommute(s, b, x, y);
    }
  }

  lemma TwoAsks(s: Setup, b: State, x: Ask, y: Ask)
    requires Shaped(s, b) && x.master < s.masters && y.master < s.masters
    ensures AskedAll(s, b, [x, y]) == if Asked(s, b, x).None? then None else Asked(s, Asked(s, b, x).value, y)
  {
    hide Asked;
    assert [x, y][1..] == [y];
    assert [y][1..] == [];
    if Asked(s, b, x).Some? {
      var n := Asked(s, b, x).value;
      assert AskedAll(s, n, [y]) == if Asked(s, n, y).None? then None else AskedAll(s, Asked(s, n, y).value, []);
    }
  }

  // ----- Interleavings -----

  lemma {:induction false} AskedAppend(s: Setup, b: State, es: seq<Ask>, fs: seq<Ask>)
    requires Shaped(s, b) && Known(s, es) && Known(s, fs)
    ensures Known(s, es + fs)
    ensures AskedAll(s, b, es + fs) == if AskedAll(s, b, es).None? then None else AskedAll(s, AskedAll(s, b, es).value, fs)
    decreases |es|
  {
    hide Asked;
    if es == [] {
      assert es + fs == fs;
    } else {
      assert (es + fs)[1..] == es[1..] + fs;
      var n := Asked(s, b, es[0]);
      if n.Some? {
        AskedAppend(s, n.value, es[1..], fs);
      }
    }
  }

  /** A request moves to the front past requests of other masters. */
  lemma {:induction false} MoveFirst(s: Setup, b: State, es: seq<Ask>, x: Ask, fs: seq<Ask>)
    requires Shaped(s, b) && Known(s, es) && x.master < s.masters && Known(s, fs)
    requires forall i :: 0 <= i < |es| ==> es[i].master != x.master
    ensures AskedAll(s, b, es + [x] + fs) == AskedAll(s, b, [x] + es + fs)
    decreases |es|
  {
    hide AskedAll, Asked;
    if es == [] {
      assert es + [x] + fs == [x] + es + fs;
    } else {
      var n := |es| - 1;
      var front, y := es[..n], es[n];
      assert es + [x] + fs == front + ([y, x] + fs);
      assert front + [x] + ([y] + fs) == front + ([x, y] + fs);
      assert [x] + front + ([y] + fs) == [x] + es + fs;
      SwapIn(s, b, front, y, x, fs);
      MoveFirst(s, b, front, x, [y] + fs);
    }
  }

  /** Neighbours of different masters swap anywhere. */
  lemma SwapIn(s: Setup, b: State, es: seq<Ask>, x: Ask, y: Ask, fs: seq<Ask>)
    requires Shaped(s, b) && Known(s, es) && Known(s, fs) && x.master < s.masters && y.master < s.masters && x.master != y.master
    ensures Known(s, es + ([x, y] + fs)) && Known(s, es + ([y, x] + fs))
    ensures AskedAll(s, b, es + ([x, y] + fs)) == AskedAll(s, b, es + ([y, x] + fs))
  {
    hide AskedAll, Asked;
    AskedAppend(s, b, es, [x, y] + fs);
    AskedAppend(s, b, es, [y, x] + fs);
    if AskedAll(s, b, es).Some? {
      var n := AskedAll(s, b, es).value;
      AskedAppend(s, n, [x, y], fs);
      AskedAppend(s, n, [y, x], fs);
      AsksCommute(s, n, x, y);
    }
  }

  /** The requests of master `m`, in order. */
  function Of(es: seq<Ask>, m: nat): (r: seq<Ask>) {
    if es == [] then [] else Pick(es[0], m) + Of(es[1..], m)
  }

  function Pick(a: Ask, m: nat): seq<Ask> {
    if a.master == m then [a] else []
  }

  lemma OfFirst(a: Ask, es: seq<Ask>, m: nat)
    ensures Of([a] + es, m) == Pick(a, m) + Of(es, m)
  {
    assert ([a] + es)[1..] == es;
  }

  lemma OfEmpty(m: nat)
    ensures Of([], m) == []
  {
  }

  lemma {:induction false} OfAppend(es: seq<Ask>, fs: seq<Ask>, m: nat)
    ensures Of(es + fs, m) == Of(es, m) + Of(fs, m)
  {
    hide Of;
    if es == [] {
      assert es + fs == fs;
      OfEmpty(m);
    } else {
      OfAppend(es[1..], fs, m);
      OfFirst(es[0], es[1..], m);
      OfFirst(es[0], es[1..] + fs, m);
      assert es == [es[0]] + es[1..];
      assert es + fs == [es[0]] + (es[1..] + fs);
    }
  }

  lemma {:induction false} OfNone(es: seq<Ask>, m: nat)
    requires forall i :: 0 <= i < |es| ==> es[i].master != m
    ensures Of(es, m) == []
  {
    if es != [] {
      OfNone(es[1..], m);
    }
  }

  /** The first request of master `m`. */
  lemma {:induction false} FirstOf(es: seq<Ask>, m: nat) returns (j: nat)
    requires Of(es, m) != []
    ensures j < |es| && es[j] == Of(es, m)[0] && es[j].master == m && forall i :: 0 <= i < j ==> es[i].master != m
  {
    if es[0].master == m {
      j := 0;
    } else {
      j := FirstOf(es[1..], m);
      j := j + 1;
    }
  }

  /** Two orders of the same requests, with each master's in the same order, leave the same bus, and one faults exactly
      when the other does. */
  lemma {:induction false} InterleavingsAgree(s: Setup, b: State, es: seq<Ask>, fs: seq<Ask>)
    requires Shaped(s, b) && Known(s, es) && Known(s, fs) && forall m: nat :: Of(es, m) == Of(fs, m)
    ensures AskedAll(s, b, es) == AskedAll(s, b, fs)
    decreases |es|
  {
    hide Asked, AskedAll, Of;
    if es == [] {
      NothingLeft(fs);
    } else {
      var x := es[0];
      HeadOf(es);
      var j := FirstOf(fs, x.master);
      var before, after := fs[..j], fs[j + 1..];
      assert fs == before + [x] + after && es == [x] + es[1..];
      MoveFirst(s, b, before, x, after);
      assert [x] + before + after == [x] + (before + after);
      AskedAppend(s, b, [x], es[1..]);
      AskedAppend(s, b, [x], before + after);
      if AskedAll(s, b, [x]).Some? {
        forall m: nat ensures Of(es[1..], m) == Of(before + after, m) {
          RestOf(es, before, x, after, m);
        }
        InterleavingsAgree(s, AskedAll(s, b, [x]).value, es[1..], before + after);
      }
    }
  }

  lemma HeadOf(es: seq<Ask>)
    requires es != []
    ensures Of(es, es[0].master) != [] && Of(es, es[0].master)[0] == es[0]
  {
  }

  lemma NothingLeft(fs: seq<Ask>)
    requires forall m: nat :: Of([], m) == Of(fs, m)
    ensures fs == []
  {
    if fs != [] {
      HeadOf(fs);
    }
  }

  lemma RestOf(es: seq<Ask>, before: seq<Ask>, x: Ask, after: seq<Ask>, m: nat)
    requires es != [] && es[0] == x && Of(es, m) == Of(before + [x] + after, m)
    requires forall i :: 0 <= i < |before| ==> before[i].master != x.master
    ensures Of(es[1..], m) == Of(before + after, m)
  {
    hide Of;
    OfAppend(before, [x] + after, m);
    OfAppend(before, after, m);
    assert before + [x] + after == before + ([x] + after);
    OfFirst(x, after, m);
    OfFirst(x, es[1..], m);
    assert es == [x] + es[1..];
    var rest, tail := Of(es[1..], m), Of(after, m);
    assert [] + rest == rest && [] + tail == tail;
    if m == x.master {
      OfNone(before, m);
      assert ([x] + rest)[1..] == rest && ([x] + tail)[1..] == tail;
    }
  }
}
