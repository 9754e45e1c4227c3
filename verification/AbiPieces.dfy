/** Output whose sizes are filled in later: raw bytes with marks where sizes belong
    (libraries/abieos/src/abieos.hpp, size_insertion). */
module AbiPieces {
  import opened AbiTypes
  import opened AbiEncode

  datatype Insertion = Insertion(position: nat, size: nat)

  /** The bytes without the sizes. */
  function Raw(p: seq<Piece>): seq<Byte> {
    if |p| == 0 then [] else Raw(p[..|p| - 1]) + RawPiece(p[|p| - 1])
  }

  function RawPiece(p: Piece): seq<Byte> {
    match p
    case Data(b) => b
    case Size(_) => []
  }

  /** Where the sizes belong. */
  function Marks(p: seq<Piece>): seq<Insertion> {
    if |p| == 0 then [] else Marks(p[..|p| - 1]) + MarkPiece(p[|p| - 1], |Raw(p[..|p| - 1])|)
  }

  function MarkPiece(p: Piece, position: nat): seq<Insertion> {
    match p
    case Data(_) => []
    case Size(n) => [Insertion(position, n)]
  }

  lemma OneMore(p: seq<Piece>, x: Piece)
    ensures Raw(p + [x]) == Raw(p) + RawPiece(x)
    ensures Marks(p + [x]) == Marks(p) + MarkPiece(x, |Raw(p)|)
    ensures Flatten(p + [x]) == Flatten(p) + PieceBytes(x)
  {
    assert (p + [x])[..|p + [x]| - 1] == p;
  }

  // ---------------------------------------------------------------------------------------------
  // Filling in a size
  // ---------------------------------------------------------------------------------------------

  /** The k-th size becomes n. */
  function SetSize(p: seq<Piece>, k: nat, n: nat): (r: seq<Piece>)
    ensures |r| == |p|
  {
    if |p| == 0 then [] else
      var init, x := p[..|p| - 1], p[|p| - 1];
      if x.Size? && |Marks(init)| == k then init + [Size(n)] else SetSize(init, k, n) + [x]
  }

  lemma SetSizeStep(p: seq<Piece>, x: Piece, k: nat, n: nat)
    ensures SetSize(p + [x], k, n) == if x.Size? && |Marks(p)| == k then p + [Size(n)] else SetSize(p, k, n) + [x]
  {
    assert (p + [x])[..|p + [x]| - 1] == p;
  }

  lemma {:induction false} SetSizeMarks(p: seq<Piece>, k: nat, n: nat)
    requires k < |Marks(p)|
    ensures Raw(SetSize(p, k, n)) == Raw(p)
    ensures Marks(SetSize(p, k, n)) == Marks(p)[k := Insertion(Marks(p)[k].position, n)]
    decreases |p|
  {
    if |p| > 0 {
      var init, x := p[..|p| - 1], p[|p| - 1];
      assert p == init + [x];
      hide Raw, Marks, SetSize;
      OneMore(init, x);
      SetSizeStep(init, x, k, n);
      if x.Size? && |Marks(init)| == k {
        OneMore(init, Size(n));
      } else {
        SetSizeMarks(init, k, n);
        OneMore(SetSize(init, k, n), x);
      }
    }
  }

  /** A size reserved before later pieces. */
  lemma {:induction false} SetSizeFresh(p: seq<Piece>, q: seq<Piece>, m: nat, n: nat)
    ensures SetSize(p + [Size(m)] + q, |Marks(p)|, n) == p + [Size(n)] + q
    decreases |q|
  {
    hide Raw, Marks, SetSize;
    SetSizeStep(p, Size(m), |Marks(p)|, n);
    if |q| == 0 {
      assert p + [Size(m)] + q == p + [Size(m)];
    } else {
      var init, x := q[..|q| - 1], q[|q| - 1];
      assert q == init + [x];
      assert p + [Size(m)] + q == (p + [Size(m)] + init) + [x];
      assert p + [Size(n)] + q == (p + [Size(n)] + init) + [x];
      MarksGrow(p + [Size(m)], init);
      OneMore(p, Size(m));
      SetSizeFresh(p, init, m, n);
      SetSizeStep(p + [Size(m)] + init, x, |Marks(p)|, n);
    }
  }

  lemma {:induction false} MarksGrow(p: seq<Piece>, q: seq<Piece>)
    ensures |Marks(p + q)| >= |Marks(p)|
    decreases |q|
  {
    if |q| == 0 {
      assert p + q == p;
    } else {
      var init := q[..|q| - 1];
      MarksGrow(p, init);
      assert p + q == (p + init) + [q[|q| - 1]];
      OneMore(p + init, q[|q| - 1]);
    }
  }

  // ---------------------------------------------------------------------------------------------
  // Splicing
  // ---------------------------------------------------------------------------------------------

  ghost predicate Ordered(marks: seq<Insertion>, length: nat) {
    && (forall i | 0 <= i < |marks| :: marks[i].position <= length)
    && (forall i, j | 0 <= i < j < |marks| :: marks[i].position <= marks[j].position)
  }

  lemma {:induction false} MarksOrdered(p: seq<Piece>)
    ensures Ordered(Marks(p), |Raw(p)|)
    decreases |p|
  {
    if |p| > 0 {
      MarksOrdered(p[..|p| - 1]);
    }
  }

  /** The bytes up to a position with the sizes of the marks there. */
  function Spliced(raw: seq<Byte>, marks: seq<Insertion>): seq<Byte>
    requires forall i | 0 <= i < |marks| :: marks[i].position <= |raw|
    requires forall i, j | 0 <= i < j < |marks| :: marks[i].position <= marks[j].position
    decreases |marks|
  {
    if |marks| == 0 then raw else
      var last := marks[|marks| - 1];
      Spliced(raw[..last.position], marks[..|marks| - 1]) + Varuint(last.size) + raw[last.position..]
  }

  lemma SplicedMoreRaw(raw: seq<Byte>, more: seq<Byte>, marks: seq<Insertion>)
    requires Ordered(marks, |raw|)
    ensures Spliced(raw + more, marks) == Spliced(raw, marks) + more
  {
    if |marks| > 0 {
      var at := marks[|marks| - 1].position;
      assert (raw + more)[..at] == raw[..at] && (raw + more)[at..] == raw[at..] + more;
    }
  }

  /** Splicing the sizes into the raw bytes gives the flat output. */
  lemma {:induction false} SplicedIsFlat(p: seq<Piece>)
    ensures Ordered(Marks(p), |Raw(p)|)
    ensures Spliced(Raw(p), Marks(p)) == Flatten(p)
    decreases |p|
  {
    MarksOrdered(p);
    if |p| > 0 {
      var init, x := p[..|p| - 1], p[|p| - 1];
      assert p == init + [x];
      SplicedIsFlat(init);
      SplicedStep(init, x);
    }
  }

  lemma SplicedStep(init: seq<Piece>, x: Piece)
    requires Ordered(Marks(init), |Raw(init)|) && Spliced(Raw(init), Marks(init)) == Flatten(init)
    requires Ordered(Marks(init + [x]), |Raw(init + [x])|)
    ensures Spliced(Raw(init + [x]), Marks(init + [x])) == Flatten(init + [x])
  {
    OneMore(init, x);
    hide Raw, Marks, Flatten;
    match x
    case Data(b) =>
      assert Marks(init) + [] == Marks(init);
      SplicedMoreRaw(Raw(init), b, Marks(init));
    case Size(n) =>
      assert Raw(init) + [] == Raw(init);
      SplicedMark(Raw(init), Marks(init), n);
  }

  lemma SplicedMark(raw: seq<Byte>, marks: seq<Insertion>, n: nat)
    requires Ordered(marks, |raw|)
    ensures Ordered(marks + [Insertion(|raw|, n)], |raw|)
    ensures Spliced(raw, marks + [Insertion(|raw|, n)]) == Spliced(raw, marks) + Varuint(n)
  {
    var all := marks + [Insertion(|raw|, n)];
    assert all[..|all| - 1] == marks && raw[..|raw|] == raw && raw[|raw|..] == [];
  }

  /** The final loop of the driver. */
  method Splice(raw: seq<Byte>, marks: seq<Insertion>) returns (bin: seq<Byte>)
    requires Ordered(marks, |raw|)
    ensures bin == Spliced(raw, marks)
  {
    bin := [];
    var pos := 0;
    for i := 0 to |marks|
      invariant pos == if i == 0 then 0 else marks[i - 1].position
      invariant Ordered(marks[..i], pos) && bin == Spliced(raw[..pos], marks[..i])
    {
      var at := marks[i].position;
      SplicedMoreRaw(raw[..pos], raw[pos..at], marks[..i]);
      assert raw[..pos] + raw[pos..at] == raw[..at];
      assert marks[..i + 1][..i] == marks[..i];
      assert raw[..at][..at] == raw[..at] && raw[..at][at..] == [];
      bin := bin + raw[pos..at];
      bin := bin + Varuint(marks[i].size);
      pos := at;
    }
    SplicedMoreRaw(raw[..pos], raw[pos..], marks);
    assert raw[..pos] + raw[pos..] == raw;
    assert marks[..|marks|] == marks;
    bin := bin + raw[pos..];
  }
}
