/** Members of a round have contiguous indices; each group is a contiguous range of them
    (contracts/eden/src/elections.cpp, contracts/eden/include/elections.hpp). */
module GroupIndex {
  import opened Powers
  import opened ElectionConfig

  /** The round can be stored: its groups are not larger than 255 and the counts fit in 16 bits. */
  predicate Storable(c: RoundConfig) {
    && 0 < c.groups < WIDTH16
    && 0 < c.participants < WIDTH16
    && c.participants <= 255 * c.groups
  }

  lemma CeilBounds(p: nat, g: nat)
    requires p > 0 && g > 0
    ensures var m := (p + g - 1) / g; m > 0 && p <= m * g < p + g
  {
    var m := (p + g - 1) / g;
    CeilWithin(p, g, m);
    CeilWithin(p, g, 0);
    CeilWithin(p, g, m - 1);
    Distribute(m - 1, 1, g);
  }

  /** No stored width wraps. */
  lemma HeaderWidths(c: RoundConfig)
    requires Storable(c)
    ensures c.GroupMaxSize() == c.Ceil() > 0
    ensures c.GroupMinSize() == c.GroupMaxSize() - 1
    ensures c.NumShortGroups() == c.GroupMaxSize() * c.groups - c.participants < c.groups
    ensures c.NumLargeGroups() == c.groups - c.NumShortGroups()
  {
    CeilBounds(c.participants, c.groups);
    CeilWithin(c.participants, c.groups, 255);
  }

  lemma SplitProduct(m: int, large: int, short: int)
    ensures (m + 1) * large + m * short == (m + 1) * (large + short) - short
  {
  }

  /** The invariants listed in the header. */
  lemma HeaderInvariants(c: RoundConfig)
    requires Storable(c)
    ensures c.GroupMaxSize() == c.Ceil() > 0
    ensures c.GroupMinSize() == c.GroupMaxSize() - 1
    ensures c.NumShortGroups() < c.groups
    ensures c.NumLargeGroups() == c.groups - c.NumShortGroups()
    ensures c.groups * c.GroupMaxSize() - c.NumShortGroups() == c.participants
    ensures (c.GroupMinSize() + 1) * c.NumLargeGroups() + c.GroupMinSize() * c.NumShortGroups() == c.participants
  {
    HeaderWidths(c);
    SplitProduct(c.GroupMinSize(), c.NumLargeGroups(), c.NumShortGroups());
    assert c.groups * c.GroupMaxSize() == c.GroupMaxSize() * c.groups;
  }

  /** A member beyond the large groups is in a non-empty short group. */
  lemma ShortGroupsNonEmpty(c: RoundConfig, idx: nat)
    requires Storable(c) && (c.GroupMinSize() + 1) * c.NumLargeGroups() <= idx < c.participants
    ensures c.GroupMinSize() > 0
  {
    HeaderInvariants(c);
  }

  function MemberIndexToGroup(c: RoundConfig, idx: nat): nat
    requires Storable(c) && idx < c.participants
  {
    var numLarge := c.NumLargeGroups();
    var minSize := c.GroupMinSize();
    var membersInLarge := (minSize + 1) * numLarge;
    if idx < membersInLarge then
      Quotient(idx, minSize + 1)
    else
      ShortGroupsNonEmpty(c, idx);
      Quotient(idx - membersInLarge, minSize) + numLarge
  }

  function Quotient(n: nat, d: nat): nat
    requires d > 0
  {
    n / d
  }

  function GroupToFirstMemberIndex(c: RoundConfig, g: nat): nat
    requires Storable(c)
  {
    var numLarge := c.NumLargeGroups();
    var minSize := c.GroupMinSize();
    var membersInLarge := (minSize + 1) * numLarge;
    if g < numLarge then
      Product2(g, minSize + 1)
    else
      membersInLarge + Product2(g - numLarge, minSize)
  }

  function Product2(a: nat, b: nat): nat {
    a * b
  }

  /** The size a loop gives to the group that starts at the given index. */
  function WalkSize(c: RoundConfig, next: nat): nat
    requires Storable(c)
  {
    c.GroupMinSize() + (if next < c.NumLargeGroups() * c.GroupMaxSize() then 1 else 0)
  }

  /** The groups are consecutive ranges that cover all the indices, larger ones first. */
  lemma Ranges(c: RoundConfig, g: nat)
    requires Storable(c) && g < c.groups
    ensures GroupToFirstMemberIndex(c, 0) == 0
    ensures GroupToFirstMemberIndex(c, c.groups) == c.participants
    ensures GroupToFirstMemberIndex(c, g + 1) - GroupToFirstMemberIndex(c, g)
         == (if g < c.NumLargeGroups() then c.GroupMaxSize() else c.GroupMinSize())
    ensures GroupToFirstMemberIndex(c, g + 1) <= c.participants
  {
    HeaderInvariants(c);
    var l, m := c.NumLargeGroups(), c.GroupMinSize();
    if g < l {
      Distribute(g, 1, m + 1);
      MulMono(g + 1, m + 1, l, m + 1);
      assert (m + 1) * l == l * (m + 1);
    } else {
      Distribute(g - l, 1, m);
      MulMono(g + 1 - l, m, c.NumShortGroups(), m);
    }
    assert (c.groups - l) * m == m * c.NumShortGroups();
  }

  lemma FirstMonotone(c: RoundConfig, g: nat, h: nat)
    requires Storable(c) && g <= h <= c.groups
    ensures GroupToFirstMemberIndex(c, g) <= GroupToFirstMemberIndex(c, h)
    decreases h - g
  {
    if g < h {
      Ranges(c, g);
      HeaderInvariants(c);
      FirstMonotone(c, g + 1, h);
    }
  }

  /** An index is in the range of the group it maps to. */
  lemma IndexInItsGroup(c: RoundConfig, idx: nat)
    requires Storable(c) && idx < c.participants
    ensures var g := MemberIndexToGroup(c, idx);
      g < c.groups && GroupToFirstMemberIndex(c, g) <= idx < GroupToFirstMemberIndex(c, g + 1)
  {
    HeaderInvariants(c);
    var l, m := c.NumLargeGroups(), c.GroupMinSize();
    var inLarge := (m + 1) * l;
    var g := MemberIndexToGroup(c, idx);
    if idx < inLarge {
      assert idx == g * (m + 1) + idx % (m + 1);
      if g >= l {
        MulMono(l, m + 1, g, m + 1);
      }
    } else {
      var k := (idx - inLarge) / m;
      assert idx - inLarge == k * m + (idx - inLarge) % m;
      if k >= c.NumShortGroups() {
        MulMono(c.NumShortGroups(), m, k, m);
      }
    }
    Ranges(c, g);
  }

  /** The two mappings describe the same split of 0..participants. */
  lemma GroupOfIndex(c: RoundConfig, g: nat, idx: nat)
    requires Storable(c) && g < c.groups && idx < c.participants
    ensures MemberIndexToGroup(c, idx) == g
       <==> GroupToFirstMemberIndex(c, g) <= idx < GroupToFirstMemberIndex(c, g + 1)
  {
    IndexInItsGroup(c, idx);
    var h := MemberIndexToGroup(c, idx);
    if h < g {
      FirstMonotone(c, h + 1, g);
    } else if g < h {
      FirstMonotone(c, g + 1, h);
    }
  }

  /** A loop that starts at a group's first index and advances by the size it computes from that
      index arrives at the next group's first index. */
  lemma WalkFollowsGroups(c: RoundConfig, g: nat)
    requires Storable(c) && g < c.groups
    ensures GroupToFirstMemberIndex(c, g) + WalkSize(c, GroupToFirstMemberIndex(c, g))
         == GroupToFirstMemberIndex(c, g + 1)
  {
    HeaderWidths(c);
    Ranges(c, g);
    var l, m := c.NumLargeGroups(), c.GroupMinSize();
    Commute(l, m + 1);
    if g < l {
      MulLess(g, l, m + 1);
    } else {
      MulNonNegative(g - l, m);
    }
  }

  lemma Commute(x: int, y: int)
    ensures x * y == y * x
  {
  }

  /** Lists the members of a group by walking the index from the group's first member; `voters`
      is the index of the round, in order. */
  method GetGroupMembers<Name>(c: RoundConfig, voters: seq<Name>, group: nat) returns (result: seq<Name>)
    requires Storable(c) && |voters| == c.participants && group < c.groups
    ensures 0 <= GroupToFirstMemberIndex(c, group) <= GroupToFirstMemberIndex(c, group + 1) <= |voters|
    ensures result == voters[GroupToFirstMemberIndex(c, group)..GroupToFirstMemberIndex(c, group + 1)]
  {
    Ranges(c, group);
    FirstMonotone(c, group, group + 1);
    ghost var first, next := GroupToFirstMemberIndex(c, group), GroupToFirstMemberIndex(c, group + 1);
    result := [];
    var i := GroupToFirstMemberIndex(c, group);
    while i < |voters| && MemberIndexToGroup(c, i) == group
      invariant first <= i <= next
      invariant result == voters[first..i]
      decreases |voters| - i
    {
      GroupOfIndex(c, group, i);
      result := result + [voters[i]];
      i := i + 1;
    }
    if i < next {
      GroupOfIndex(c, group, i);
    }
  }
}
