/** Session keys and the window of sequence numbers that stops replays
    (contracts/eden/src/actions/sessions.cpp, contracts/eden/include/sessions.hpp). */
module Sessions {
  import opened Basics
  import opened Members

  const WINDOW: nat := 20
  const WIDTH32: nat := 0x1_0000_0000

  // ---------------------------------------------------------------------------------------------
  // The window of sequence numbers
  // ---------------------------------------------------------------------------------------------

  predicate Ascending(w: seq<nat>) {
    forall i, j | 0 <= i < j < |w| :: w[i] < w[j]
  }

  /** std::lower_bound: how many entries are smaller. */
  function LowerBound(w: seq<nat>, s: nat): (at: nat)
    ensures at <= |w|
    ensures forall i | 0 <= i < at :: w[i] < s
    ensures at < |w| ==> w[at] >= s
  {
    if |w| == 0 || w[0] >= s then 0 else 1 + LowerBound(w[1..], s)
  }

  /** The largest number that does not skip too many; 32-bit addition wraps around. */
  function Limit(w: seq<nat>): nat {
    if |w| == 0 then 10 else (w[|w| - 1] + 10) % WIDTH32
  }

  function Inserted(w: seq<nat>, s: nat): (r: seq<nat>)
    ensures |r| == |w| + 1
  {
    var at := LowerBound(w, s);
    w[..at] + [s] + w[at..]
  }

  /** The window after a number, or none when it is refused. */
  function Accept(w: seq<nat>, s: nat): Option<seq<nat>> {
    if |w| > 0 && s < w[0] && |w| >= WINDOW then None
    else if s > Limit(w) then None
    else if LowerBound(w, s) < |w| && w[LowerBound(w, s)] == s then None
    else if |w| + 1 > WINDOW then Some(Inserted(w, s)[1..])
    else Some(Inserted(w, s))
  }

  /** The window holds all the accepted numbers, or the 20 largest of them. */
  ghost predicate Remembers(w: seq<nat>, accepted: set<nat>) {
    && Ascending(w) && |w| <= WINDOW
    && (forall x | x in w :: x in accepted)
    && (forall x | x in accepted && x !in w :: |w| == WINDOW && x < w[0])
  }

  lemma FoundByBound(w: seq<nat>, s: nat)
    requires Ascending(w)
    ensures s in w <==> LowerBound(w, s) < |w| && w[LowerBound(w, s)] == s
  {
    var at := LowerBound(w, s);
    if s in w {
      var i :| 0 <= i < |w| && w[i] == s;
      assert at <= i;
    }
  }

  lemma InsertedAscends(w: seq<nat>, s: nat)
    requires Ascending(w) && s !in w
    ensures Ascending(Inserted(w, s))
    ensures forall x :: x in Inserted(w, s) <==> x in w || x == s
  {
    var at, r := LowerBound(w, s), Inserted(w, s);
    forall i | at <= i < |w| ensures w[i] > s {
      assert w[i] in w && w[at] <= w[i];
    }
    forall i, j | 0 <= i < j < |r| ensures r[i] < r[j] {
      assert r[i] == if i < at then w[i] else if i == at then s else w[i - 1];
      assert r[j] == if j < at then w[j] else if j == at then s else w[j - 1];
    }
    InsertedMembers(w, s);
  }

  lemma InsertedMembers(w: seq<nat>, s: nat)
    ensures forall x :: x in Inserted(w, s) <==> x in w || x == s
  {
    var at := LowerBound(w, s);
    assert w == w[..at] + w[at..];
  }

  /** Exactly when a number is accepted: it was never accepted before, it does not skip too many,
      and it is above the window's start once the window is full. */
  lemma AcceptedWhen(w: seq<nat>, accepted: set<nat>, s: nat)
    requires Remembers(w, accepted)
    ensures Accept(w, s).Some? <==> s !in accepted && s <= Limit(w) && (|w| == WINDOW ==> s > w[0])
  {
    FoundByBound(w, s);
    if |w| > 0 {
      assert w[0] in w;
    }
  }

  lemma AcceptRemembers(w: seq<nat>, accepted: set<nat>, s: nat)
    requires Remembers(w, accepted) && Accept(w, s).Some?
    ensures Remembers(Accept(w, s).value, accepted + {s})
  {
    AcceptedWhen(w, accepted, s);
    InsertedAscends(w, s);
    var r := Inserted(w, s);
    if |r| > WINDOW {
      assert r[0] < r[1];
      assert forall x | x in r :: x == r[0] || x in r[1..];
      assert w[0] in r;
      OldestLeaves(w, s);
    }
  }

  /** A full window loses its smallest number. */
  lemma OldestLeaves(w: seq<nat>, s: nat)
    requires Ascending(w) && |w| == WINDOW && s > w[0]
    ensures Inserted(w, s)[0] == w[0] && w[0] < Inserted(w, s)[1]
  {
  }

  // ---------------------------------------------------------------------------------------------
  // What may be accepted, in terms of all numbers accepted before
  // ---------------------------------------------------------------------------------------------

  ghost predicate Largest(a: set<nat>, m: nat) {
    m in a && forall x | x in a :: x <= m
  }

  function Above(a: set<nat>, s: nat): set<nat> {
    set x | x in a && x > s
  }

  /** A number that was not accepted before, with fewer than 20 larger ones accepted, and at most 10 above the largest,
      where the sum of 32-bit numbers wraps around. A session starts below 11. */
  ghost predicate MayFollow(accepted: set<nat>, s: nat) {
    && s !in accepted
    && |Above(accepted, s)| < 20
    && if accepted == {} then s <= 10 else exists m: nat :: Largest(accepted, m) && s <= (m + 10) % 0x1_0000_0000
  }

  function Elements(l: seq<nat>): set<nat> {
    set x | x in l
  }

  lemma {:induction false} SetOfAscending(w: seq<nat>)
    requires Ascending(w)
    ensures |Elements(w)| == |w|
    decreases |w|
  {
    if |w| > 0 {
      var n := |w| - 1;
      SetOfAscending(w[..n]);
      assert forall x | x in w[..n] :: x < w[n];
      assert w == w[..n] + [w[n]];
      assert Elements(w) == Elements(w[..n]) + {w[n]};
    }
  }

  lemma LastIsLargest(w: seq<nat>, accepted: set<nat>)
    requires Remembers(w, accepted)
    ensures accepted == {} <==> |w| == 0
    ensures |w| > 0 ==> Largest(accepted, w[|w| - 1])
  {
    if |w| > 0 {
      assert w[|w| - 1] in w;
      forall x | x in accepted ensures x <= w[|w| - 1] {
        if x in w {
          var i :| 0 <= i < |w| && w[i] == x;
          assert i < |w| - 1 ==> w[i] < w[|w| - 1];
        } else {
          assert w[0] < w[|w| - 1];
        }
      }
    }
  }

  lemma FewAbove(w: seq<nat>, accepted: set<nat>, s: nat)
    requires Remembers(w, accepted) && s !in accepted
    ensures |Above(accepted, s)| < 20 <==> (|w| == 20 ==> s > w[0])
  {
    if |w| == 20 && s < w[0] {
      SetOfAscending(w);
      assert forall x | x in w :: x > s;
      SubsetSize(Elements(w), Above(accepted, s));
    } else if |w| == 20 {
      assert w[0] in w;
      SetOfAscending(w[1..]);
      assert w == [w[0]] + w[1..];
      SubsetSize(Above(accepted, s), Elements(w[1..]));
    } else {
      SetOfAscending(w);
      SubsetSize(Above(accepted, s), Elements(w));
    }
  }

  /** The window decides exactly this, although it remembers only 20 numbers. */
  lemma AcceptedBySet(w: seq<nat>, accepted: set<nat>, s: nat)
    requires Remembers(w, accepted)
    ensures Accept(w, s).Some? <==> MayFollow(accepted, s)
  {
    AcceptedWhen(w, accepted, s);
    LastIsLargest(w, accepted);
    if s !in accepted {
      FewAbove(w, accepted, s);
    }
    hide Remembers, Accept, Above;
    if |w| > 0 {
      assert forall m: nat | Largest(accepted, m) :: m == w[|w| - 1];
    }
  }

  /** One more number: whatever was received before, it is accepted exactly if it may follow the numbers accepted. */
  lemma NextAccepted(received: seq<nat>, s: nat)
    ensures Accepted([], received + [s])
         == Accepted([], received) + if MayFollow(Elements(Accepted([], received)), s) then [s] else []
  {
    NextAcceptedFrom([], {}, received, s);
    assert {} + Elements(Accepted([], received)) == Elements(Accepted([], received));
  }

  lemma {:induction false} NextAcceptedFrom(w: seq<nat>, before: set<nat>, received: seq<nat>, s: nat)
    requires Remembers(w, before)
    ensures Accepted(w, received + [s])
         == Accepted(w, received) + if MayFollow(before + Elements(Accepted(w, received)), s) then [s] else []
    decreases |received|
  {
    hide Accept, Remembers, MayFollow;
    if |received| == 0 {
      assert received + [s] == [s];
      assert before + Elements([]) == before;
      AcceptedBySet(w, before, s);
      assert [s][1..] == [];
    } else {
      var first, more := received[0], received[1..];
      assert (received + [s])[1..] == more + [s];
      if Accept(w, first).Some? {
        AcceptRemembers(w, before, first);
        var next := Accept(w, first).value;
        NextAcceptedFrom(next, before + {first}, more, s);
        assert before + {first} + Elements(Accepted(next, more)) == before + Elements([first] + Accepted(next, more));
      } else {
        NextAcceptedFrom(w, before, more, s);
      }
    }
  }

  /** The numbers accepted of those received, in order. */
  function Accepted(w: seq<nat>, received: seq<nat>): seq<nat>
    decreases |received|
  {
    if |received| == 0 then []
    else if Accept(w, received[0]).Some? then [received[0]] + Accepted(Accept(w, received[0]).value, received[1..])
    else Accepted(w, received[1..])
  }

  predicate Once(a: seq<nat>) {
    forall i, j | 0 <= i < j < |a| :: a[i] != a[j]
  }

  /** Every number once, and none of those accepted before. */
  ghost predicate New(a: seq<nat>, before: set<nat>) {
    Once(a) && forall x | x in a :: x !in before
  }

  lemma NewFirst(s: nat, a: seq<nat>, before: set<nat>)
    requires s !in before && New(a, before + {s})
    ensures New([s] + a, before)
  {
  }

  lemma {:induction false} NothingTwice(w: seq<nat>, before: set<nat>, received: seq<nat>)
    requires Remembers(w, before)
    ensures New(Accepted(w, received), before)
    decreases |received|
  {
    hide Accept, Remembers;
    if |received| == 0 {
    } else if Accept(w, received[0]).Some? {
      var s := received[0];
      AcceptedWhen(w, before, s);
      AcceptRemembers(w, before, s);
      NothingTwice(Accept(w, s).value, before + {s}, received[1..]);
      NewFirst(s, Accepted(Accept(w, s).value, received[1..]), before);
    } else {
      NothingTwice(w, before, received[1..]);
    }
  }

  /** A session never accepts a sequence number twice, whatever it receives. */
  lemma NeverTwice(received: seq<nat>)
    ensures Once(Accepted([], received))
  {
    NothingTwice([], {}, received);
  }

  // ---------------------------------------------------------------------------------------------
  // When the limit wraps around
  // ---------------------------------------------------------------------------------------------

  /** The next number is accepted exactly until the limit wraps around. */
  lemma NextIsAccepted(w: seq<nat>, accepted: set<nat>)
    requires Remembers(w, accepted) && |w| > 0 && w[|w| - 1] + 1 < WIDTH32
    ensures Accept(w, w[|w| - 1] + 1).Some? <==> w[|w| - 1] + 10 < WIDTH32
  {
    var s := w[|w| - 1] + 1;
    forall i | 0 <= i < |w| ensures w[i] < s {
      assert i == |w| - 1 || w[i] < w[|w| - 1];
    }
    assert s !in w && w[0] < s;
    AcceptedWhen(w, accepted, s);
  }

  /** No number is accepted any more, and so none ever again. */
  ghost predicate Locked(w: seq<nat>) {
    forall s: nat :: Accept(w, s).None?
  }

  /** A full window is locked exactly when its limit has wrapped around and it starts at the limit or above,
      or holds every number from its start up to the limit. */
  lemma LockedWhen(w: seq<nat>, accepted: set<nat>)
    requires Remembers(w, accepted) && |w| == WINDOW && w[|w| - 1] < WIDTH32
    ensures Locked(w) <==>
      && w[|w| - 1] + 10 >= WIDTH32
      && (w[0] >= Limit(w) || w[Limit(w) - w[0]] == Limit(w))
  {
    var last, limit := w[|w| - 1], Limit(w);
    forall s: nat ensures Accept(w, s).Some? <==> w[0] < s <= limit && s !in w {
      AcceptedWhen(w, accepted, s);
    }
    if last + 10 < WIDTH32 {
      NextIsAccepted(w, accepted);
    } else if w[0] < limit {
      assert limit == last + 10 - WIDTH32 < 10;
      var k := limit - w[0];
      if w[k] == limit {
        forall s: nat | w[0] < s <= limit ensures s in w {
          Spread(w, 0, s - w[0]);
          Spread(w, s - w[0], k);
        }
      } else {
        var s := FirstGap(w, k);
      }
    }
  }

  lemma {:induction false} Spread(w: seq<nat>, i: nat, j: nat)
    requires Ascending(w) && i <= j < |w|
    ensures w[j] - w[i] >= j - i
    decreases j
  {
    if i < j {
      Spread(w, i, j - 1);
    }
  }

  /** A window that does not hold `k` numbers in a row after its first lacks one of them. */
  lemma {:induction false} FirstGap(w: seq<nat>, k: nat) returns (s: nat)
    requires Ascending(w) && k < |w| && w[k] != w[0] + k
    ensures w[0] < s <= w[0] + k && s !in w
    decreases k
  {
    if w[k - 1] != w[0] + k - 1 {
      s := FirstGap(w, k - 1);
    } else {
      s := w[0] + k;
      Spread(w, 0, k);
      forall i | 0 <= i < |w| ensures w[i] != s {
        assert i < k - 1 ==> w[i] < w[k - 1];
        assert i > k ==> w[k] < w[i];
      }
    }
  }

  /** The window after the numbers received, in order. */
  function WindowAfter(received: seq<nat>): seq<nat> {
    if |received| == 0 then [] else
      var w := WindowAfter(received[..|received| - 1]);
      match Accept(w, received[|received| - 1])
      case None => w
      case Some(next) => next
  }

  function Count(n: nat): (r: seq<nat>)
    ensures |r| == n
  {
    seq(n, i => i)
  }

  /** The last numbers below `n`, at most as many as a window holds. */
  function LastBelow(n: nat): (r: seq<nat>)
    ensures |r| == if n < WINDOW then n else WINDOW
    ensures forall i | 0 <= i < |r| :: r[i] == n - |r| + i
  {
    if n < WINDOW then Count(n) else seq(WINDOW, i requires 0 <= i < WINDOW => n - WINDOW + i)
  }

  lemma {:induction false} CountingFills(n: nat)
    requires n + 9 <= WIDTH32
    ensures WindowAfter(Count(n)) == LastBelow(n)
    ensures Remembers(LastBelow(n), Below(n))
    decreases n
  {
    hide Accept, LastBelow, Remembers, Count;
    if n > 0 {
      CountingFills(n - 1);
      CountMore(n);
      CountAccepted(n);
      AcceptRemembers(LastBelow(n - 1), Below(n - 1), n - 1);
    } else {
      CountNone();
    }
  }

  /** 0 to n - 1. */
  function Below(n: nat): set<nat> {
    if n == 0 then {} else Below(n - 1) + {n - 1}
  }

  lemma CountMore(n: nat)
    requires n > 0
    ensures |Count(n)| == n && Count(n)[..n - 1] == Count(n - 1) && Count(n)[n - 1] == n - 1
  {
  }

  lemma CountNone()
    ensures Count(0) == [] && LastBelow(0) == [] && Remembers([], Below(0))
  {
  }

  lemma CountAccepted(n: nat)
    requires 0 < n && n + 9 <= WIDTH32
    ensures Accept(LastBelow(n - 1), n - 1) == Some(LastBelow(n))
  {
    var w, s := LastBelow(n - 1), n - 1;
    assert LowerBound(w, s) == |w|;
    assert Inserted(w, s) == w + [s];
    assert n <= WINDOW ==> w + [s] == LastBelow(n);
    assert n > WINDOW ==> (w + [s])[1..] == LastBelow(n);
  }

  /** A client that counts up from 0 is locked out by the number 2^32 - 10. */
  lemma CountingLocks()
    ensures Locked(WindowAfter(Count(WIDTH32 - 9)))
  {
    var n := WIDTH32 - 9;
    CountingFills(n);
    LockedWhen(LastBelow(n), Below(n));
  }

  // ---------------------------------------------------------------------------------------------
  // The table of sessions
  // ---------------------------------------------------------------------------------------------

  const MAX_SLOT: nat := 0xFFFF_FFFF

  type Slot = t: nat | t <= MAX_SLOT

  /** Times are block slots; keys are numbered. */
  datatype Session = Session(key: nat, expiration: Slot, sequences: seq<nat>)

  datatype Container = Container(earliest: nat, sessions: seq<Session>)

  const MAX_LIFETIME: nat := 90 * 24 * 60 * 60 * 2
  const MAX_SESSIONS: nat := 4

  function Earliest(l: seq<Session>): (t: nat)
    ensures forall i | 0 <= i < |l| :: t <= l[i].expiration
    ensures t == MAX_SLOT || exists i :: 0 <= i < |l| && l[i].expiration == t
  {
    if |l| == 0 then MAX_SLOT else
      var rest := Earliest(l[1..]);
      assert forall i | 1 <= i < |l| :: l[i] == l[1..][i - 1];
      if l[0].expiration < rest then l[0].expiration else rest
  }

  /** expire keeps the order of the rest. */
  function Unexpired(l: seq<Session>, now: nat): (r: seq<Session>)
    ensures |r| <= |l|
  {
    if |l| == 0 then [] else
      (if l[0].expiration <= now then [] else [l[0]]) + Unexpired(l[1..], now)
  }

  predicate DistinctKeys(l: seq<Session>) {
    forall i, j | 0 <= i < j < |l| :: l[i].key != l[j].key
  }

  lemma {:induction false} UnexpiredMembers(l: seq<Session>, now: nat)
    ensures forall x :: x in Unexpired(l, now) <==> x in l && x.expiration > now
    ensures DistinctKeys(l) ==> DistinctKeys(Unexpired(l, now))
    decreases |l|
  {
    if |l| > 0 {
      UnexpiredMembers(l[1..], now);
      assert l == [l[0]] + l[1..];
    }
  }

  /** The place of a key, or -1. */
  function FindKey(l: seq<Session>, key: nat): (k: int)
    ensures -1 <= k < |l|
    ensures k >= 0 ==> l[k].key == key
    ensures k < 0 ==> forall i | 0 <= i < |l| :: l[i].key != key
  {
    if |l| == 0 then -1
    else if l[0].key == key then 0
    else
      var k := FindKey(l[1..], key);
      assert k < 0 ==> forall i | 1 <= i < |l| :: l[i] == l[1..][i - 1];
      if k < 0 then -1 else k + 1
  }

  predicate Sound(c: Container) {
    0 < |c.sessions| <= MAX_SESSIONS && DistinctKeys(c.sessions) && c.earliest == Earliest(c.sessions)
  }

  type Records = map<(Name, nat), set<nat>>

  ghost predicate Remembered(accepted: Records, a: Name, s: Session) {
    (a, s.key) in accepted && Remembers(s.sequences, accepted[(a, s.key)])
  }

  ghost predicate AllRemembered(accepted: Records, a: Name, l: seq<Session>) {
    forall s | s in l :: Remembered(accepted, a, s)
  }

  ghost predicate Good(table: map<Name, Container>, accepted: Records) {
    forall a | a in table :: Sound(table[a]) && AllRemembered(accepted, a, table[a].sessions)
  }

  /** One account's sessions are replaced. */
  lemma PutGood(table: map<Name, Container>, accepted: Records, a: Name, c: Container, key: nat, numbers: set<nat>)
    requires Good(table, accepted) && Sound(c) && AllRemembered(accepted[(a, key) := numbers], a, c.sessions)
    ensures Good(table[a := c], accepted[(a, key) := numbers])
  {
    hide Sound, Remembers;
    var r := accepted[(a, key) := numbers];
    forall b | b in table && b != a ensures AllRemembered(r, b, table[b].sessions) {
      forall s | s in table[b].sessions ensures Remembered(r, b, s) {
        assert Remembered(accepted, b, s);
      }
    }
  }

  lemma PutSame(table: map<Name, Container>, accepted: Records, a: Name, c: Container)
    requires Good(table, accepted) && Sound(c) && AllRemembered(accepted, a, c.sessions)
    ensures Good(table[a := c], accepted)
  {
    hide Sound;
  }

  lemma KeptRemembered(accepted: Records, a: Name, l: seq<Session>, now: nat)
    requires AllRemembered(accepted, a, l)
    ensures AllRemembered(accepted, a, Unexpired(l, now))
  {
    UnexpiredMembers(l, now);
  }

  /** The sessions after a new one: the first of five is dropped. */
  function WithSession(l: seq<Session>, s: Session): (r: seq<Session>)
    ensures |r| > 0
  {
    var all := l + [s];
    if |all| > MAX_SESSIONS then all[1..] else all
  }

  lemma WithSessionRemembered(accepted: Records, a: Name, l: seq<Session>, key: nat, expiration: Slot)
    requires AllRemembered(accepted, a, l) && DistinctKeys(l) && FindKey(l, key) < 0 && |l| <= MAX_SESSIONS
    ensures AllRemembered(accepted[(a, key) := {}], a, WithSession(l, Session(key, expiration, [])))
    ensures DistinctKeys(WithSession(l, Session(key, expiration, [])))
    ensures |WithSession(l, Session(key, expiration, []))| <= MAX_SESSIONS
  {
    var s, r := Session(key, expiration, []), accepted[(a, key) := {}];
    assert Remembers([], {});
    forall x | x in l + [s] ensures Remembered(r, a, x) {
      if x != s {
        var i :| 0 <= i < |l| && l[i] == x;
        assert Remembered(accepted, a, x);
      }
    }
  }

  class SessionTable {
    var table: map<Name, Container>

    /** The numbers each record has accepted since it was made. */
    ghost var accepted: Records

    ghost predicate Valid()
      reads this
    {
      Good(table, accepted)
    }

    constructor ()
      ensures Valid() && table == map[]
    {
      table, accepted := map[], map[];
    }

    function Kept(account: Name, now: nat): seq<Session>
      reads this
    {
      if account in table then Unexpired(table[account].sessions, now) else []
    }

    /** newsession. */
    method NewSession(now: Slot, account: Name, key: nat, expiration: Slot, descriptionSize: nat, isMember: bool) returns (ok: bool)
      requires Valid()
      modifies this
      ensures Valid()
      ensures ok <==>
        && now < expiration <= now + 15552000 && descriptionSize <= 20 && isMember
        && forall s | s in old(Kept(account, now)) :: s.key != key
      ensures ok ==> accepted == old(accepted)[(account, key) := {}]
      ensures ok ==> account in table && table == old(table)[account := table[account]]
                     && var all := old(Kept(account, now)) + [Session(key, expiration, [])];
                        table[account].sessions == if |all| > 4 then all[1..] else all
      ensures !ok ==> table == old(table) && accepted == old(accepted)
    {
      hide Remembers, Good, Sound, AllRemembered;
      ok := now < expiration <= now + MAX_LIFETIME && descriptionSize <= 20 && isMember;
      if !ok {
        return;
      }
      KeptGood(table, accepted, account, now);
      var kept := Kept(account, now);
      if FindKey(kept, key) >= 0 {
        return false;
      }
      var sessions := WithSession(kept, Session(key, expiration, []));
      WithSessionRemembered(accepted, account, kept, key, expiration);
      var c := Container(Earliest(sessions), sessions);
      SoundIs(c);
      PutGood(table, accepted, account, c, key, {});
      accepted := accepted[(account, key) := {}];
      table := table[account := c];
    }

    /** delsession; an account without sessions is dropped. */
    method DelSession(now: Slot, account: Name, key: nat) returns (ok: bool)
      requires Valid()
      modifies this`table
      ensures Valid()
      ensures ok <==> account in old(table) && FindKey(old(table)[account].sessions, key) >= 0
      ensures ok ==> var kept := Without(old(table)[account].sessions, key, now);
        if |kept| == 0 then table == old(table) - {account}
        else account in table && table == old(table)[account := table[account]] && table[account].sessions == kept
      ensures !ok ==> table == old(table)
    {
      hide Remembers, Good, Sound, AllRemembered;
      if account !in table {
        return false;
      }
      var sessions := table[account].sessions;
      var k := FindKey(sessions, key);
      if k < 0 {
        return false;
      }
      WithoutGood(table, accepted, account, key, now);
      var kept := Without(sessions, key, now);
      if |kept| == 0 {
        table := table - {account};
      } else {
        var c := Container(Earliest(kept), kept);
        SoundIs(c);
        PutSame(table, accepted, account, c);
        table := table[account := c];
      }
      ok := true;
    }

    /** run with a signature: the session must exist and must not have seen the number. A refused
        call changes nothing. */
    method RunSigned(now: Slot, account: Name, key: nat, sequence: nat) returns (ok: bool)
      requires Valid()
      modifies this
      ensures Valid()
      ensures var k := FindKey(old(Kept(account, now)), key);
        ok <==> k >= 0 && (account, key) in old(accepted) && MayFollow(old(accepted)[(account, key)], sequence)
      ensures ok ==> (account, key) in old(accepted) && sequence !in old(accepted)[(account, key)]
      ensures ok ==> accepted == old(accepted)[(account, key) := old(accepted)[(account, key)] + {sequence}]
      ensures ok ==> account in table && table == old(table)[account := table[account]]
      ensures !ok ==> table == old(table) && accepted == old(accepted)
    {
      hide Remembers, Good, Sound, AllRemembered, Accept, MayFollow;
      KeptGood(table, accepted, account, now);
      if account !in table {
        return false;
      }
      var kept := Unexpired(table[account].sessions, now);
      var k := FindKey(kept, key);
      if k < 0 {
        return false;
      }
      IsRemembered(accepted, account, kept, k);
      AcceptedBySet(kept[k].sequences, accepted[(account, key)], sequence);
      var window := AcceptNumber(kept[k].sequences, sequence);
      if window.None? {
        return false;
      }
      SequenceRemembered(accepted, account, kept, k, sequence);
      var sessions := kept[k := Session(key, kept[k].expiration, window.value)];
      var c := Container(Earliest(sessions), sessions);
      SoundIs(c);
      ghost var numbers := accepted[(account, key)] + {sequence};
      PutGood(table, accepted, account, c, key, numbers);
      accepted := accepted[(account, key) := numbers];
      table := table[account := c];
      ok := true;
    }

    /** gc_sessions: the accounts with the earliest expirations first. */
    method GcSessions(now: Slot, maxSteps: nat) returns (remaining: nat)
      requires Valid()
      modifies this`table
      ensures Valid() && remaining <= maxSteps
      ensures forall a | a in table :: a in old(table)
      ensures forall a | a in old(table) :: Collected(old(table), table, a, now)
      ensures |Changed(old(table), table)| == maxSteps - remaining
      ensures remaining > 0 ==> forall a, s | a in table && s in table[a].sessions :: s.expiration > now
    {
      hide Remembers, Good, Sound, AllRemembered, Collected, Changed, Earliest, Unexpired;
      remaining := maxSteps;
      NothingCollected(table, now);
      NothingChanged(table);
      while remaining > 0 && exists a :: a in table && table[a].earliest <= now
        invariant Valid() && remaining <= maxSteps
        invariant forall a | a in table :: a in old(table)
        invariant forall a | a in old(table) :: Collected(old(table), table, a, now)
        invariant |Changed(old(table), table)| == maxSteps - remaining
      {
        FirstExists(table, now);
        var a :| a in table && ExpiresFirst(table, a) && table[a].earliest <= now;
        KeptGood(table, accepted, a, now);
        var kept := Unexpired(table[a].sessions, now);
        CollectedOne(old(table), table, a, now);
        OneMoreChanged(old(table), table, a, now);
        if |kept| == 0 {
          DropGood(table, accepted, a);
          table := table - {a};
        } else {
          var c := Container(Earliest(kept), kept);
          SoundIs(c);
          PutSame(table, accepted, a, c);
          table := table[a := c];
        }
        remaining := remaining - 1;
      }
      NoneExpired(table, accepted, now);
    }
  }

  /** An account is as it was, or without its expired sessions, or gone when none is left. */
  predicate Collected(before: map<Name, Container>, after: map<Name, Container>, a: Name, now: nat)
    requires a in before
  {
    if a in after then
      after[a] == before[a] || (after[a].sessions == Unexpired(before[a].sessions, now) && after[a].earliest > now)
    else |Unexpired(before[a].sessions, now)| == 0
  }

  /** The accounts that were collected. */
  function Changed(before: map<Name, Container>, after: map<Name, Container>): set<Name> {
    set a | a in before && (a !in after || after[a] != before[a])
  }

  lemma NothingChanged(table: map<Name, Container>)
    ensures |Changed(table, table)| == 0
  {
    assert Changed(table, table) == {};
  }

  /** Each account is collected once. */
  lemma OneMoreChanged(before: map<Name, Container>, table: map<Name, Container>, a: Name, now: nat)
    requires forall b | b in table :: b in before
    requires forall b | b in before :: Collected(before, table, b, now)
    requires a in table && table[a].earliest <= now
    ensures var kept := Unexpired(table[a].sessions, now);
      |Changed(before, if |kept| == 0 then table - {a} else table[a := Container(Earliest(kept), kept)])|
        == |Changed(before, table)| + 1
  {
    KeptLater(table[a].sessions, now);
    assert Collected(before, table, a, now) && table[a] == before[a];
    hide Earliest, Unexpired, Collected;
    var kept := Unexpired(table[a].sessions, now);
    var next := if |kept| == 0 then table - {a} else table[a := Container(Earliest(kept), kept)];
    assert Changed(before, next) == Changed(before, table) + {a};
  }

  lemma NothingCollected(table: map<Name, Container>, now: nat)
    ensures forall a | a in table :: Collected(table, table, a, now)
  {
  }

  lemma CollectedOne(before: map<Name, Container>, table: map<Name, Container>, a: Name, now: nat)
    requires forall b | b in table :: b in before
    requires forall b | b in before :: Collected(before, table, b, now)
    requires a in table && table[a].earliest <= now
    ensures var kept := Unexpired(table[a].sessions, now);
      if |kept| == 0 then forall b | b in before :: Collected(before, table - {a}, b, now)
      else forall b | b in before :: Collected(before, table[a := Container(Earliest(kept), kept)], b, now)
  {
    KeptLater(table[a].sessions, now);
    hide Earliest, Unexpired;
    var kept := Unexpired(table[a].sessions, now);
    forall b | b in before
      ensures |kept| == 0 ==> Collected(before, table - {a}, b, now)
      ensures |kept| > 0 ==> Collected(before, table[a := Container(Earliest(kept), kept)], b, now)
    {
      assert Collected(before, table, b, now);
    }
  }

  /** The check of the sequence number and the insertion. */
  method AcceptNumber(w: seq<nat>, s: nat) returns (r: Option<seq<nat>>)
    ensures r == Accept(w, s)
  {
    if |w| > 0 {
      if s < w[0] && |w| >= WINDOW {
        return None;
      } else if s > (w[|w| - 1] + 10) % WIDTH32 {
        return None;
      }
    } else if s > 10 {
      return None;
    }
    var at := LowerBound(w, s);
    if at < |w| && w[at] == s {
      return None;
    }
    var next := w[..at] + [s] + w[at..];
    if |next| > WINDOW {
      next := next[1..];
    }
    r := Some(next);
  }

  function Without(l: seq<Session>, key: nat, now: nat): seq<Session> {
    var k := FindKey(l, key);
    if k < 0 then l else Unexpired(l[..k] + l[k + 1..], now)
  }

  lemma WithoutGood(table: map<Name, Container>, accepted: Records, a: Name, key: nat, now: nat)
    requires Good(table, accepted) && a in table && FindKey(table[a].sessions, key) >= 0
    ensures var kept := Without(table[a].sessions, key, now);
      AllRemembered(accepted, a, kept) && DistinctKeys(kept) && |kept| <= MAX_SESSIONS
    ensures Good(table - {a}, accepted)
  {
    hide Remembered, FindKey, Unexpired;
    DropGood(table, accepted, a);
    var l := table[a].sessions;
    var k := FindKey(l, key);
    RestRemembered(accepted, a, l, k);
    hide DistinctKeys, AllRemembered;
    KeptRemembered(accepted, a, l[..k] + l[k + 1..], now);
    UnexpiredMembers(l[..k] + l[k + 1..], now);
  }

  lemma RestRemembered(accepted: Records, a: Name, l: seq<Session>, k: nat)
    requires AllRemembered(accepted, a, l) && DistinctKeys(l) && k < |l|
    ensures AllRemembered(accepted, a, l[..k] + l[k + 1..]) && DistinctKeys(l[..k] + l[k + 1..])
  {
    hide Remembered;
    var rest := l[..k] + l[k + 1..];
    assert forall i | 0 <= i < |rest| :: rest[i] == if i < k then l[i] else l[i + 1];
  }

  lemma DropGood(table: map<Name, Container>, accepted: Records, a: Name)
    requires Good(table, accepted)
    ensures Good(table - {a}, accepted)
  {
    hide Remembers, Sound;
  }

  lemma IsRemembered(accepted: Records, a: Name, l: seq<Session>, k: nat)
    requires AllRemembered(accepted, a, l) && k < |l|
    ensures (a, l[k].key) in accepted && Remembers(l[k].sequences, accepted[(a, l[k].key)])
  {
    assert l[k] in l;
    assert Remembered(accepted, a, l[k]);
  }

  lemma SequenceRemembered(accepted: Records, a: Name, l: seq<Session>, k: nat, s: nat)
    requires AllRemembered(accepted, a, l) && DistinctKeys(l) && k < |l| && Accept(l[k].sequences, s).Some?
    ensures var key := l[k].key;
      && (a, key) in accepted && s !in accepted[(a, key)]
      && var next := l[k := Session(key, l[k].expiration, Accept(l[k].sequences, s).value)];
         && AllRemembered(accepted[(a, key) := accepted[(a, key)] + {s}], a, next)
         && DistinctKeys(next)
  {
    hide Remembers, Accept;
    var key := l[k].key;
    assert l[k] in l;
    assert Remembered(accepted, a, l[k]);
    AcceptedWhen(l[k].sequences, accepted[(a, key)], s);
    AcceptRemembers(l[k].sequences, accepted[(a, key)], s);
    var next := l[k := Session(key, l[k].expiration, Accept(l[k].sequences, s).value)];
    var r := accepted[(a, key) := accepted[(a, key)] + {s}];
    forall x | x in next ensures Remembered(r, a, x) {
      var i :| 0 <= i < |next| && next[i] == x;
      if i != k {
        assert l[i] in l && Remembered(accepted, a, l[i]);
      }
    }
  }

  /** The order of the index by expiration. */
  predicate ExpiresFirst(table: map<Name, Container>, a: Name)
    requires a in table
  {
    forall b | b in table :: table[a].earliest <= table[b].earliest
  }

  lemma {:induction false} FirstExists(table: map<Name, Container>, now: nat)
    requires exists a :: a in table && table[a].earliest <= now
    ensures exists a :: a in table && ExpiresFirst(table, a) && table[a].earliest <= now
    decreases |table|
  {
    var x :| x in table && table[x].earliest <= now;
    var rest := table - {x};
    if exists a :: a in rest && rest[a].earliest <= now {
      FirstExists(rest, now);
      var y :| y in rest && ExpiresFirst(rest, y) && rest[y].earliest <= now;
      var best := if table[y].earliest < table[x].earliest then y else x;
      forall b | b in table ensures table[best].earliest <= table[b].earliest {
        assert b == x || (b in rest && rest[b] == table[b]);
      }
      assert ExpiresFirst(table, best);
    } else {
      forall b | b in table ensures table[x].earliest <= table[b].earliest {
        assert b == x || (b in rest && rest[b] == table[b]);
      }
      assert ExpiresFirst(table, x);
    }
  }

  /** What is kept expires later. */
  lemma KeptLater(l: seq<Session>, now: nat)
    ensures |Unexpired(l, now)| > 0 ==> Earliest(Unexpired(l, now)) > now
  {
    UnexpiredMembers(l, now);
    var kept := Unexpired(l, now);
    forall i | 0 <= i < |kept| ensures kept[i].expiration > now {
      assert kept[i] in kept;
    }
  }

  lemma NoneExpired(table: map<Name, Container>, accepted: Records, now: nat)
    requires Good(table, accepted)
    ensures (forall a | a in table :: table[a].earliest > now) ==>
      forall a, s | a in table && s in table[a].sessions :: s.expiration > now
  {
    forall a, s | a in table && s in table[a].sessions ensures table[a].earliest <= s.expiration {
      var i :| 0 <= i < |table[a].sessions| && table[a].sessions[i] == s;
      assert Sound(table[a]);
    }
  }

  lemma SoundIs(c: Container)
    ensures Sound(c) <==> 0 < |c.sessions| <= MAX_SESSIONS && DistinctKeys(c.sessions) && c.earliest == Earliest(c.sessions)
  {
  }

  lemma KeptGood(table: map<Name, Container>, accepted: Records, a: Name, now: nat)
    requires Good(table, accepted)
    ensures a in table ==>
      && AllRemembered(accepted, a, Unexpired(table[a].sessions, now)) && DistinctKeys(Unexpired(table[a].sessions, now))
      && |Unexpired(table[a].sessions, now)| <= MAX_SESSIONS
    ensures AllRemembered(accepted, a, []) && DistinctKeys([])
  {
    if a in table {
      KeptRemembered(accepted, a, table[a].sessions, now);
      UnexpiredMembers(table[a].sessions, now);
    }
  }
}
