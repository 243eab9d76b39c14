/** The tri-colour invariant and its parts, over explicit heap values. */
module GcInv {
  import opened Common
  import opened GcHeap

  ghost predicate Shape(objs: Heap, marked: Marks) { objs.Keys == marked.Keys }

  /** The three intrusive lists share one `gclist` field: no object is on two of them. */
  ghost predicate ListsOk(objs: Heap, marked: Marks, gray: seq<Ref>, again: seq<Ref>, weak: seq<Ref>) {
    && NoDup(gray) && NoDup(again) && NoDup(weak)
    && (forall r :: r in gray ==>
        r in objs && r in marked && marked[r].color.Gray? && objs[r].Traversable() && r !in again && r !in weak)
    && (forall r :: r in again ==>
        r in objs && r in marked && marked[r].color.Gray? && (objs[r].Thread? || objs[r].Table?) && r !in weak)
    && (forall r :: r in weak ==> r in objs && r in marked && marked[r].color.Gray? && objs[r].Table?)
  }

  /** Gray objects are on a list, except strings and open upvalues, which are never on one. */
  ghost predicate GrayListed(objs: Heap, marked: Marks, gray: seq<Ref>, again: seq<Ref>, weak: seq<Ref>) {
    forall r :: r in objs && r in marked && marked[r].color.Gray? ==>
      objs[r].Str? || objs[r].IsOpen() || r in gray || r in again || r in weak
  }

  /** Which colours each kind of object can have: three kinds are never black, and userdata is never gray. */
  ghost predicate BlackOk(objs: Heap, marked: Marks) {
    forall r :: r in objs && r in marked ==>
      && (marked[r].color.Black? ==> !objs[r].Str? && !objs[r].Thread? && !objs[r].IsOpen())
      && (marked[r].color.Gray? ==> !objs[r].Udata?)
  }

  ghost predicate NoneDead(marked: Marks, cw: bool) {
    forall r :: r in marked ==> !IsDead(marked[r], cw)
  }

  /** What is marked, off the gray list and not in `todo` refers to marked objects only. */
  ghost predicate Tri(objs: Heap, marked: Marks, gray: seq<Ref>, todo: set<Ref>) {
    forall r :: r in objs && r in marked && !marked[r].color.White? && r !in gray && r !in todo ==>
      Covered(objs, objs[r], marked[r], NonWhite(marked))
  }

  /** Marked userdata that the marking does not enter. */
  ghost predicate CutOk(objs: Heap, marked: Marks, cut: set<Ref>) {
    forall r :: r in cut ==> r in objs && r in marked && objs[r].Udata? && !marked[r].color.White?
  }

  ghost predicate Uncut(cut: set<Ref>) { cut == {} }

  lemma NoCut(objs: Heap, marked: Marks)
    ensures CutOk(objs, marked, {})
  {
  }

  ghost predicate MarkInv(objs: Heap, marked: Marks, cw: bool,
                          gray: seq<Ref>, again: seq<Ref>, weak: seq<Ref>, todo: set<Ref>) {
    && Shape(objs, marked)
    && LiveClosed(objs, objs.Keys)
    && ListsOk(objs, marked, gray, again, weak)
    && GrayListed(objs, marked, gray, again, weak)
    && BlackOk(objs, marked)
    && NoneDead(marked, cw)
    && Tri(objs, marked, gray, todo)
  }

  /** `r` may leave `todo` once what it refers to is marked. */
  lemma Shrink(objs: Heap, marked: Marks, cw: bool,
               gray: seq<Ref>, again: seq<Ref>, weak: seq<Ref>, todo: set<Ref>, r: Ref)
    requires MarkInv(objs, marked, cw, gray, again, weak, todo + {r})
    requires r in objs && r in marked && (marked[r].color.White? || Covered(objs, objs[r], marked[r], NonWhite(marked)))
    ensures MarkInv(objs, marked, cw, gray, again, weak, todo)
  {
  }

  lemma NonWhiteGrows(m: Marks, m': Marks)
    requires OnlyMarks(m, m')
    ensures NonWhite(m) <= NonWhite(m')
  {
  }

  /** Colouring one white object, and perhaps putting it on the gray list. */
  lemma ColorOne(objs: Heap, marked: Marks, cw: bool, gray: seq<Ref>, again: seq<Ref>, weak: seq<Ref>,
                 todo: set<Ref>, r: Ref, c: Color, push: bool, K: set<Ref>)
    requires MarkInv(objs, marked, cw, gray, again, weak, todo)
    requires r in marked && marked[r].color.White? && !c.White? && r in K
    requires push ==> c.Gray? && objs[r].Traversable()
    requires !push && c.Gray? ==> objs[r].Str? || objs[r].IsOpen()
    requires c.Black? ==> !objs[r].Str? && !objs[r].Thread? && !objs[r].IsOpen()
    ensures var m' := marked[r := marked[r].(color := c)];
      && Grows(marked, m', K)
      && Whites(m') < Whites(marked) && |Whites(m')| == |Whites(marked)| - 1
      && r in NonWhite(m')
      && MarkInv(objs, m', cw, if push then [r] + gray else gray, again, weak, if push then todo else todo + {r})
  {
    var m' := marked[r := marked[r].(color := c)];
    var gray' := if push then [r] + gray else gray;
    var todo' := if push then todo else todo + {r};
    assert OnlyMarks(marked, m');
    NonWhiteGrows(marked, m');
    WhitesShrink(marked, r, c);
    forall x | x in objs && x in m' && !m'[x].color.White? && x !in gray' && x !in todo'
      ensures Covered(objs, objs[x], m'[x], NonWhite(m'))
    {
      assert x != r && x !in gray;
      CoveredMonotone(objs, objs[x], marked[x], NonWhite(marked), NonWhite(m'));
    }
    assert r !in gray && r !in again && r !in weak;
    assert ListsOk(objs, m', gray', again, weak);
  }

  lemma WhitesShrink(m: Marks, r: Ref, c: Color)
    requires r in m && m[r].color.White? && !c.White?
    ensures Whites(m[r := m[r].(color := c)]) < Whites(m)
    ensures |Whites(m[r := m[r].(color := c)])| == |Whites(m)| - 1
  {
    var m' := m[r := m[r].(color := c)];
    assert Whites(m) == Whites(m') + {r} && r !in Whites(m');
  }

  /** Marking that stayed inside K. */
  ghost predicate Grows(m: Marks, m': Marks, K: set<Ref>) {
    OnlyMarks(m, m') && NonWhite(m') <= NonWhite(m) + K
  }

  lemma GrowsTrans(m: Marks, m': Marks, m'': Marks, K: set<Ref>)
    requires Grows(m, m', K) && Grows(m', m'', K)
    ensures Grows(m, m'', K) && NonWhite(m') <= NonWhite(m'')
  {
  }

  lemma GrowsKeeps(m: Marks, m': Marks, K: set<Ref>, r: Ref)
    requires Grows(m, m', K) && r in m && !m[r].color.White?
    ensures r in m' && m'[r] == m[r] && r in NonWhite(m')
  {
  }

  lemma Widen(objs: Heap, marked: Marks, cw: bool,
              gray: seq<Ref>, again: seq<Ref>, weak: seq<Ref>, todo: set<Ref>, todo': set<Ref>)
    requires MarkInv(objs, marked, cw, gray, again, weak, todo) && todo <= todo'
    ensures MarkInv(objs, marked, cw, gray, again, weak, todo')
  {
  }

  // ---- traversing one gray object ----

  /** Taking the first gray object off the list, about to be traversed. */
  lemma PopGray(objs: Heap, marked: Marks, cw: bool,
                gray: seq<Ref>, again: seq<Ref>, weak: seq<Ref>, todo: set<Ref>)
    requires MarkInv(objs, marked, cw, gray, again, weak, todo) && |gray| > 0
    ensures var r := gray[0];
      && r in objs && r in marked && objs[r].Traversable() && marked[r].color.Gray?
      && r !in gray[1..] && r !in again && r !in weak && r in NonWhite(marked)
      && Whites(marked[r := marked[r].(color := Black)]) == Whites(marked)
      && NonWhite(marked[r := marked[r].(color := Black)]) == NonWhite(marked)
      && (if objs[r].Thread? then
            MarkInv(objs, marked, cw, gray[1..], [r] + again, weak, todo + {r})
          else
            MarkInv(objs, marked[r := marked[r].(color := Black)], cw, gray[1..], again, weak, todo + {r}))
  {
    var r := gray[0];
    NoDupTail(gray);
    assert r in gray;
    if objs[r].Thread? {
      NoDupCons(r, again);
    } else {
      var m' := marked[r := marked[r].(color := Black)];
      assert NonWhite(m') == NonWhite(marked);
      assert Whites(m') == Whites(marked);
    }
  }

  /** A traversed table that turned out weak goes back to gray, onto the weak list. */
  lemma PushWeak(objs: Heap, marked: Marks, cw: bool,
                 gray: seq<Ref>, again: seq<Ref>, weak: seq<Ref>, todo: set<Ref>, r: Ref, mode: Mode)
    requires MarkInv(objs, marked, cw, gray, again, weak, todo + {r})
    requires r in objs && r in marked && objs[r].Table? && marked[r].color.Black?
    requires r !in gray && r !in again && r !in weak
    requires TableCovered(objs[r], mode.k, mode.v, NonWhite(marked))
    ensures var m' := marked[r := marked[r].(color := Gray, bit3 := mode.k, bit4 := mode.v)];
      && MarkInv(objs, m', cw, gray, again, [r] + weak, todo)
      && NonWhite(m') == NonWhite(marked) && Whites(m') == Whites(marked)
  {
    var m' := marked[r := marked[r].(color := Gray, bit3 := mode.k, bit4 := mode.v)];
    assert NonWhite(m') == NonWhite(marked);
    assert Whites(m') == Whites(marked);
    NoDupCons(r, weak);
  }

  // ---- dead keys ----

  function RemoveEntry(n: Node): Node {
    if n.key.Live? && n.key.v.Gc? then n.(key := Dead(n.key.v.ref)) else n
  }

  /** traversetable's treatment of empty entries; a fully weak table is left alone. */
  function DropEmpty(node: seq<Node>, mode: Mode): (r: seq<Node>)
    ensures |r| == |node|
  {
    if mode.k && mode.v then node
    else seq(|node|, i requires 0 <= i < |node| => if node[i].val.Nil? then RemoveEntry(node[i]) else node[i])
  }

  lemma DropEmptyAt(node: seq<Node>, mode: Mode)
    ensures forall i :: 0 <= i < |node| ==>
      DropEmpty(node, mode)[i] ==
        if !(mode.k && mode.v) && node[i].val.Nil? && node[i].key.Live? && node[i].key.v.Gc?
        then Node(Dead(node[i].key.v.ref), Nil) else node[i]
  {
  }

  /** Retagging keys of empty entries changes no reference that counts. */
  lemma DropEmptyKeeps(objs: Heap, marked: Marks, cw: bool, gray: seq<Ref>, again: seq<Ref>, weak: seq<Ref>,
                       todo: set<Ref>, r: Ref, mode: Mode, K: set<Ref>, cut: set<Ref>)
    requires MarkInv(objs, marked, cw, gray, again, weak, todo)
    requires r in objs && objs[r].Table? && StrongBut(objs, K, cut)
    ensures var objs' := objs[r := objs[r].(node := DropEmpty(objs[r].node, mode))];
      MarkInv(objs', marked, cw, gray, again, weak, todo) && StrongBut(objs', K, cut)
  {
    var o := objs[r];
    var objs' := objs[r := o.(node := DropEmpty(o.node, mode))];
    assert objs'.Keys == objs.Keys;
    assert ListsOk(objs', marked, gray, again, weak);
    forall x | x in objs ensures RefsIn(objs', objs'[x], objs.Keys)
    {
      DropEmptyRefs(objs, r, mode, x, objs.Keys);
    }
    assert Tri(objs', marked, gray, todo) by {
      forall x | x in objs && x in marked && !marked[x].color.White? && x !in gray && x !in todo
        ensures Covered(objs', objs'[x], marked[x], NonWhite(marked))
      {
        DropEmptyCovered(objs, r, mode, x, marked[x], NonWhite(marked));
      }
    }
    forall x | x in objs && x in K && x !in cut ensures StrongIn(objs', objs'[x], K)
    {
      assert StrongIn(objs, objs[x], K);
      DropEmptyRefs(objs, r, mode, x, K);
    }
  }

  lemma DropEmptyRefs(objs: Heap, r: Ref, mode: Mode, x: Ref, S: set<Ref>)
    requires r in objs && objs[r].Table? && x in objs
    ensures var objs' := objs[r := objs[r].(node := DropEmpty(objs[r].node, mode))];
      && (RefsIn(objs, objs[x], S) <==> RefsIn(objs', objs'[x], S))
      && (StrongIn(objs, objs[x], S) ==> StrongIn(objs', objs'[x], S))
  {
    DropEmptyLive(objs[r], mode, S);
  }

  lemma DropEmptyCovered(objs: Heap, r: Ref, mode: Mode, x: Ref, m: Mark, S: set<Ref>)
    requires r in objs && objs[r].Table? && x in objs && Covered(objs, objs[x], m, S)
    ensures var objs' := objs[r := objs[r].(node := DropEmpty(objs[r].node, mode))];
      Covered(objs', objs'[x], m, S)
  {
    DropEmptyRefs(objs, r, mode, x, S);
  }

  lemma DropEmptyLive(o: Obj, mode: Mode, S: set<Ref>)
    requires o.Table?
    ensures ObjLive(o, S) <==> ObjLive(o.(node := DropEmpty(o.node, mode)), S)
  {
    var node' := DropEmpty(o.node, mode);
    assert forall i :: 0 <= i < |o.node| ==> (NodeLive(o.node[i], S) <==> NodeLive(node'[i], S));
  }

  lemma GrowsSame(m: Marks, K: set<Ref>)
    ensures Grows(m, m, K)
  {
  }

  lemma AllOkMore(vs: seq<Value>, i: nat, S: set<Ref>, S': set<Ref>)
    requires i < |vs| && AllOk(vs[i + 1..], S) && S <= S' && Ok(vs[i], S')
    ensures AllOk(vs[i..], S')
  {
    assert forall j :: 0 < j < |vs| - i ==> vs[i..][j] == vs[i + 1..][j - 1];
  }

  // ---- an object is covered once each part of it has been marked ----

  lemma ClosureCovered(objs: Heap, o: Obj, S1: set<Ref>, S: set<Ref>)
    requires (o.CClosure? || o.LClosure?) && S1 <= S && o.env in S1
    requires o.CClosure? ==> AllOk(o.upvalue, S)
    requires o.LClosure? ==> o.p in S && RefsOk(o.upvals, S)
    ensures RefsIn(objs, o, S)
  {
  }

  lemma ProtoCovered(objs: Heap, o: Obj, S1: set<Ref>, S2: set<Ref>, S3: set<Ref>, S: set<Ref>)
    requires o.Proto? && S1 <= S2 <= S3 <= S
    requires o.source.Some? ==> o.source.value in S1
    requires AllOk(o.k, S2) && RefsOk(o.names, S3) && RefsOk(o.protos, S)
    ensures RefsIn(objs, o, S)
  {
  }

  lemma ThreadCovered(objs: Heap, o: Obj, S1: set<Ref>, S: set<Ref>)
    requires o.Thread? && S1 <= S && Ok(o.gt, S1) && AllOk(o.stack, S)
    ensures RefsIn(objs, o, S)
  {
  }

  /** A table is covered when its metatable, then its array part, then its nodes have been marked. */
  lemma TableCoveredBy(o: Obj, mode: Mode, S1: set<Ref>, S2: set<Ref>, S: set<Ref>)
    requires o.Table? && S1 <= S2 <= S
    requires o.mt.Some? ==> o.mt.value in S1
    requires !mode.v ==> AllOk(o.arr, S2)
    requires !(mode.k && mode.v) ==> forall i :: 0 <= i < |o.node| ==>
      NodeCovered(DropEmpty(o.node, mode)[i], mode.k, mode.v, S)
    ensures TableCovered(o.(node := DropEmpty(o.node, mode)), mode.k, mode.v, S)
  {
  }

  lemma TableParts(objs: Heap, marked: Marks, cw: bool, gray: seq<Ref>, again: seq<Ref>, weak: seq<Ref>, todo: set<Ref>,
    r: Ref, K: set<Ref>, cut: set<Ref>)
    requires MarkInv(objs, marked, cw, gray, again, weak, todo) && CutOk(objs, marked, cut) && StrongBut(objs, K, cut)
    requires r in objs && r in K && objs[r].Table?
    ensures RefsIn(objs, objs[r], objs.Keys) && StrongIn(objs, objs[r], K)
  {
    hide Tri, ListsOk, GrayListed, BlackOk, NoneDead, RefsIn, StrongIn;
  }

  /** What StrongIn of a table means part by part. */
  lemma TableStrong(objs: Heap, o: Obj, K: set<Ref>)
    requires o.Table? && RefsIn(objs, o, objs.Keys) && StrongIn(objs, o, K)
    ensures var mode := ModeOf(objs, o.mt);
      && (o.mt.Some? ==> o.mt.value in objs && o.mt.value in K)
      && AllOk(o.arr, objs.Keys) && (!mode.v ==> AllOk(o.arr, K))
      && (forall i :: 0 <= i < |o.node| ==> NodeLive(o.node[i], objs.Keys))
      && (forall i :: 0 <= i < |o.node| && !o.node[i].val.Nil? ==> NodeCovered(o.node[i], mode.k, mode.v, K))
  {
  }

  lemma GrowsWhites(m: Marks, m': Marks, K: set<Ref>)
    requires Grows(m, m', K)
    ensures Whites(m') <= Whites(m)
  {
  }

  lemma OwnRefs(objs: Heap, marked: Marks, cw: bool, gray: seq<Ref>, again: seq<Ref>, weak: seq<Ref>, todo: set<Ref>,
    r: Ref, K: set<Ref>, cut: set<Ref>)
    requires MarkInv(objs, marked, cw, gray, again, weak, todo) && StrongBut(objs, K, cut) && r in objs && r in K &&
      r !in cut
    requires objs[r].Udata? || objs[r].UpVal? || objs[r].Str?
    ensures var o := objs[r];
      && (o.Udata? ==> o.env in objs && o.env in K && (o.mt.Some? ==> o.mt.value in objs && o.mt.value in K))
      && (o.UpVal? ==> Ok(UpValue(objs, o.cell), objs.Keys) && Ok(UpValue(objs, o.cell), K))
    ensures r in marked && (!marked[r].color.White? ==> r in NonWhite(marked))
  {
    hide Tri, ListsOk, GrayListed, BlackOk, NoneDead;
    assert RefsIn(objs, objs[r], objs.Keys) && RefsIn(objs, objs[r], K);
  }

  /** What an upvalue or userdata refers to is marked: it may leave `todo`. */
  lemma UdataCovered(objs: Heap, o: Obj, S1: set<Ref>, S: set<Ref>)
    requires o.Udata? && S1 <= S && (o.mt.Some? ==> o.mt.value in S1) && o.env in S
    ensures RefsIn(objs, o, S)
  {
  }

  lemma UpValCovered(objs: Heap, o: Obj, S: set<Ref>)
    requires o.UpVal? && Ok(UpValue(objs, o.cell), S)
    ensures RefsIn(objs, o, S)
  {
  }

  /** Shrink, for an object that is no table. */
  lemma ShrinkPlain(objs: Heap, marked: Marks, cw: bool,
                    gray: seq<Ref>, again: seq<Ref>, weak: seq<Ref>, todo: set<Ref>, r: Ref)
    requires MarkInv(objs, marked, cw, gray, again, weak, todo + {r})
    requires r in objs && r in marked && !objs[r].Table?
    requires marked[r].color.White? || RefsIn(objs, objs[r], NonWhite(marked))
    ensures MarkInv(objs, marked, cw, gray, again, weak, todo)
  {
    Shrink(objs, marked, cw, gray, again, weak, todo, r);
  }

  /** ... and for a table traversed as strong, now black. */
  lemma ShrinkTable(objs: Heap, marked: Marks, cw: bool,
                    gray: seq<Ref>, again: seq<Ref>, weak: seq<Ref>, todo: set<Ref>, r: Ref)
    requires MarkInv(objs, marked, cw, gray, again, weak, todo + {r})
    requires r in objs && r in marked && objs[r].Table? && marked[r].color.Black?
    requires TableCovered(objs[r], false, false, NonWhite(marked))
    ensures MarkInv(objs, marked, cw, gray, again, weak, todo)
  {
    Shrink(objs, marked, cw, gray, again, weak, todo, r);
  }

  lemma StrCovered(objs: Heap, o: Obj, S: set<Ref>)
    requires o.Str?
    ensures RefsIn(objs, o, S)
  {
  }

  // ---- what a marking phase leaves alone ----

  /** Only keys of empty entries may have been retagged as dead. */
  ghost predicate ObjKept(o: Obj, o': Obj) {
    o' == o ||
    (o.Table? && o'.Table? && o' == o.(node := o'.node) && |o'.node| == |o.node| &&
     forall i :: 0 <= i < |o.node| ==> o'.node[i] == o.node[i] || (o.node[i].val.Nil? && o'.node[i] == RemoveEntry(o.node[i])))
  }

  ghost predicate HeapKept(objs: Heap, objs': Heap) {
    objs'.Keys == objs.Keys && forall r :: r in objs ==> ObjKept(objs[r], objs'[r])
  }

  /** Headers keep their fixed bit; and bits 3 and 4 unless they belong to a table. */
  ghost predicate MarksKept(objs: Heap, m: Marks, m': Marks) {
    m'.Keys == m.Keys &&
    forall r :: r in m ==>
      && m'[r].fixed == m[r].fixed
      && (r in objs && !objs[r].Table? ==> m'[r].bit3 == m[r].bit3 && m'[r].bit4 == m[r].bit4)
  }

  /** How far one marking step got: white objects turned, K not left, headers and objects kept. */
  ghost predicate Progress(objs: Heap, m: Marks, objs': Heap, m': Marks, K: set<Ref>) {
    HeapKept(objs, objs') && MarksKept(objs, m, m') && NonWhite(m) <= NonWhite(m') <= NonWhite(m) + K
  }

  lemma ProgressTrans(objs: Heap, m: Marks, objs1: Heap, m1: Marks, objs2: Heap, m2: Marks, K: set<Ref>)
    requires Progress(objs, m, objs1, m1, K) && Progress(objs1, m1, objs2, m2, K)
    ensures Progress(objs, m, objs2, m2, K) && NonWhite(m1) <= NonWhite(m2)
  {
    HeapKeptTrans(objs, objs1, objs2);
  }

  lemma HeapKeptTrans(objs: Heap, objs1: Heap, objs2: Heap)
    requires HeapKept(objs, objs1) && HeapKept(objs1, objs2)
    ensures HeapKept(objs, objs2)
  {
    forall r | r in objs ensures ObjKept(objs[r], objs2[r])
    {
      assert ObjKept(objs[r], objs1[r]) && ObjKept(objs1[r], objs2[r]);
    }
  }

  lemma ProgressSame(objs: Heap, m: Marks, K: set<Ref>)
    ensures Progress(objs, m, objs, m, K)
  {
  }

  lemma ProgressGrows(objs: Heap, m: Marks, m': Marks, K: set<Ref>)
    requires Grows(m, m', K)
    ensures Progress(objs, m, objs, m', K)
  {
  }

  /** Changing the header of one nonwhite object to another nonwhite one with the same bits (any bits if a table). */
  lemma ProgressHeader(objs: Heap, m: Marks, r: Ref, h: Mark, K: set<Ref>)
    requires r in m && !m[r].color.White? && !h.color.White? && h.fixed == m[r].fixed
    requires r in objs && (objs[r].Table? || (h.bit3 == m[r].bit3 && h.bit4 == m[r].bit4))
    ensures Progress(objs, m, objs, m[r := h], K)
  {
  }

  lemma ProgressDrop(objs: Heap, m: Marks, r: Ref, mode: Mode, K: set<Ref>)
    requires r in objs && objs[r].Table?
    ensures Progress(objs, m, objs[r := objs[r].(node := DropEmpty(objs[r].node, mode))], m, K)
  {
  }

  lemma BlackUnlisted(objs: Heap, marked: Marks, cw: bool,
                      gray: seq<Ref>, again: seq<Ref>, weak: seq<Ref>, todo: set<Ref>, r: Ref)
    requires MarkInv(objs, marked, cw, gray, again, weak, todo) && r in marked && marked[r].color.Black?
    ensures r in objs && r !in gray && r !in again && r !in weak
  {
  }

  lemma KeptThreads(objs: Heap, objs': Heap)
    requires HeapKept(objs, objs')
    ensures forall x :: x in objs && objs[x].Thread? ==> x in objs' && objs'[x] == objs[x]
  {
    forall x | x in objs && objs[x].Thread? ensures objs'[x] == objs[x]
    {
      assert ObjKept(objs[x], objs'[x]);
    }
  }

  function SetOf(s: seq<Ref>): set<Ref> { set x | x in s }

  // ---- weak tables traversed since the atomic step began ----

  /** The weak bits of a gray table are those its metatable gives. */
  ghost predicate Fits(objs: Heap, marked: Marks, r: Ref) {
    && r in objs && r in marked && objs[r].Table? && marked[r].color.Gray? && (marked[r].bit3 || marked[r].bit4)
    && ModeOf(objs, objs[r].mt) == Mode(marked[r].bit3, marked[r].bit4)
  }

  ghost predicate WeakFit(objs: Heap, marked: Marks, weak: seq<Ref>) {
    forall r :: r in weak ==> Fits(objs, marked, r)
  }

  lemma FitGrows(objs: Heap, m: Marks, m': Marks, weak: seq<Ref>, K: set<Ref>)
    requires Grows(m, m', K)
    ensures WeakFit(objs, m, weak) ==> WeakFit(objs, m', weak)
  {
  }

  lemma FitDrop(objs: Heap, m: Marks, weak: seq<Ref>, r: Ref, mode: Mode)
    requires r in objs && objs[r].Table?
    ensures WeakFit(objs, m, weak) ==> WeakFit(objs[r := objs[r].(node := DropEmpty(objs[r].node, mode))], m, weak)
  {
  }

  lemma FitBlack(objs: Heap, m: Marks, weak: seq<Ref>, r: Ref)
    requires r in m && r !in weak
    ensures WeakFit(objs, m, weak) ==> WeakFit(objs, m[r := m[r].(color := Black)], weak)
  {
  }

  lemma FitPush(objs: Heap, m: Marks, weak: seq<Ref>, r: Ref, mode: Mode)
    requires r in objs && r in m && objs[r].Table? && mode == ModeOf(objs, objs[r].mt) && (mode.k || mode.v)
    ensures WeakFit(objs, m, weak) ==>
      WeakFit(objs, m[r := m[r].(color := Gray, bit3 := mode.k, bit4 := mode.v)], [r] + weak)
  {
  }

  lemma BlackOff(objs: Heap, marked: Marks, cw: bool, gray: seq<Ref>, again: seq<Ref>, weak: seq<Ref>,
    todo: set<Ref>, r: Ref)
    requires r in marked && MarkInv(objs, marked[r := marked[r].(color := Black)], cw, gray, again, weak, todo)
    ensures r !in weak
  {
  }

  lemma DropMode(objs: Heap, r: Ref, mode: Mode, mt: Option<Ref>)
    requires r in objs && objs[r].Table?
    ensures ModeOf(objs[r := objs[r].(node := DropEmpty(objs[r].node, mode))], mt) == ModeOf(objs, mt)
  {
  }

  /** Black tables that are weak by their metatable: they were traversed when it did not say so. */
  function BlackWeak(objs: Heap, marked: Marks): set<Ref> {
    set r | r in objs && r in marked && objs[r].Table? && marked[r].color.Black? &&
      ModeOf(objs, objs[r].mt) != Mode(false, false)
  }

  lemma BlackHeader(objs: Heap, m: Marks, r: Ref, h: Mark)
    requires r in objs && (!objs[r].Table? || !h.color.Black?)
    ensures BlackWeak(objs, m[r := h]) <= BlackWeak(objs, m)
    ensures r !in BlackWeak(objs, m[r := h])
  {
  }

  /** A table about to be traversed is black for a while. */
  lemma BlackStart(objs: Heap, m: Marks, r: Ref)
    requires r in m
    ensures BlackWeak(objs, m[r := m[r].(color := Black)]) - {r} <= BlackWeak(objs, m)
  {
  }

  lemma BlackDrop(objs: Heap, m: Marks, r: Ref, mode: Mode)
    requires r in objs && objs[r].Table?
    ensures BlackWeak(objs[r := objs[r].(node := DropEmpty(objs[r].node, mode))], m) <= BlackWeak(objs, m)
  {
    forall x | x in objs && objs[x].Table? { DropMode(objs, r, mode, objs[x].mt); }
  }

  lemma BlackOut(objs: Heap, m: Marks, r: Ref)
    requires r in objs && (!objs[r].Table? || ModeOf(objs, objs[r].mt) == Mode(false, false))
    ensures r !in BlackWeak(objs, m)
  {
  }

  lemma FitNone(objs: Heap, m: Marks)
    ensures WeakFit(objs, m, [])
  {
  }

  /** Retagging dead keys changes no strong reference. */
  lemma KeptStrong(objs: Heap, objs': Heap, r: Ref, S: set<Ref>)
    requires HeapKept(objs, objs') && r in objs
    ensures StrongIn(objs', objs'[r], S) <==> StrongIn(objs, objs[r], S)
  {
    assert ObjKept(objs[r], objs'[r]);
    KeptThreads(objs, objs');
    KeptStrings(objs, objs');
    if objs[r].Table? { KeptMode(objs, objs', objs[r].mt); }
  }

  lemma KeptMode(objs: Heap, objs': Heap, mt: Option<Ref>)
    requires HeapKept(objs, objs')
    ensures ModeOf(objs', mt) == ModeOf(objs, mt)
  {
    if mt.Some? && mt.value in objs { assert ObjKept(objs[mt.value], objs'[mt.value]); }
  }

  lemma KeptStrings(objs: Heap, objs': Heap)
    requires HeapKept(objs, objs')
    ensures forall v, S :: StrOk(objs', v, S) == StrOk(objs, v, S)
  {
    forall r | r in objs ensures objs'[r].Str? == objs[r].Str? { assert ObjKept(objs[r], objs'[r]); }
  }

  lemma KeptStrongClosed(objs: Heap, objs': Heap, K: set<Ref>)
    requires HeapKept(objs, objs') && StrongClosed(objs, K)
    ensures StrongClosed(objs', K)
  {
    hide StrongIn, HeapKept;
    KeptDomain(objs, objs');
    forall r | r in objs' && r in K ensures StrongIn(objs', objs'[r], K) { KeptStrong(objs, objs', r, K); }
  }

  lemma KeptDomain(objs: Heap, objs': Heap)
    requires HeapKept(objs, objs')
    ensures objs'.Keys == objs.Keys
  {
  }

  // ---- the stages of atomic ----

  /** The weak list becomes the gray list. */
  lemma StageWeak(objs: Heap, marked: Marks, cw: bool, again: seq<Ref>, weak: seq<Ref>, todo: set<Ref>)
    requires MarkInv(objs, marked, cw, [], again, weak, todo + SetOf(weak))
    ensures MarkInv(objs, marked, cw, weak, again, [], todo)
  {
  }

  /** Then the grayagain list does. */
  lemma StageAgain(objs: Heap, marked: Marks, cw: bool, again: seq<Ref>, weak: seq<Ref>, todo: set<Ref>)
    requires MarkInv(objs, marked, cw, [], again, weak, todo + SetOf(again))
    ensures MarkInv(objs, marked, cw, again, [], weak, todo)
  {
    forall r | r in again ensures objs[r].Traversable() && r !in weak {}
  }

  /** Udata are white or black. */
  lemma UdataBlack(objs: Heap, marked: Marks, cw: bool, gray: seq<Ref>, again: seq<Ref>, weak: seq<Ref>,
    todo: set<Ref>, r: Ref)
    requires MarkInv(objs, marked, cw, gray, again, weak, todo) && r in objs && objs[r].Udata?
    ensures r in marked && (marked[r].color.White? || marked[r].color.Black?)
  {
  }

  /** marktmu's makewhite followed by the colouring in reallymarkobject leaves the userdata black. */
  lemma Reblacken(objs: Heap, marked: Marks, cw: bool, gray: seq<Ref>, again: seq<Ref>, weak: seq<Ref>, todo: set<Ref>,
    r: Ref, K: set<Ref>)
    requires MarkInv(objs, marked, cw, gray, again, weak, todo) && r in objs && objs[r].Udata? && r in K
    ensures var m' := marked[r := marked[r].(color := Black)];
      MarkInv(objs, m', cw, gray, again, weak, todo + {r}) && Grows(marked, m', K) && |Whites(m')| <= |Whites(marked)|
  {
    UdataBlack(objs, marked, cw, gray, again, weak, todo, r);
    if marked[r].color.White? {
      ColorOne(objs, marked, cw, gray, again, weak, todo, r, Black, false, K);
    } else {
      assert marked[r := marked[r].(color := Black)] == marked;
      Widen(objs, marked, cw, gray, again, weak, todo, todo + {r});
    }
  }

  /** Two headers that differ at most in the finalized bit of userdata. */
  ghost predicate SameButFinalized(objs: Heap, m: Marks, m': Marks) {
    m'.Keys == m.Keys &&
    forall r :: r in m ==> m'[r] == m[r] || (r in objs && objs[r].Udata? && m'[r] == m[r].(bit3 := m'[r].bit3))
  }

  lemma FinalizedKeeps(objs: Heap, m: Marks, m': Marks, cw: bool, gray: seq<Ref>, again: seq<Ref>, weak: seq<Ref>,
    todo: set<Ref>)
    requires MarkInv(objs, m, cw, gray, again, weak, todo) && SameButFinalized(objs, m, m')
    ensures MarkInv(objs, m', cw, gray, again, weak, todo) && NonWhite(m') == NonWhite(m)
  {
    assert NonWhite(m') == NonWhite(m);
  }

  lemma GrowsInside(m: Marks, m': Marks, K: set<Ref>)
    requires Grows(m, m', K) && NonWhite(m) <= K
    ensures NonWhite(m') <= K
  {
  }

  ghost predicate UvheadOk(objs: Heap, uvhead: seq<Ref>) {
    NoDup(uvhead) && forall r :: r in uvhead <==> r in objs && objs[r].IsOpen()
  }

  /** The next open upvalue of remarkupvals. */
  lemma UpvalReady(objs: Heap, marked: Marks, cw: bool, gray: seq<Ref>, again: seq<Ref>, weak: seq<Ref>,
                   todo: set<Ref>, uvhead: seq<Ref>, i: nat, K: set<Ref>, cut: set<Ref>)
    requires UvheadOk(objs, uvhead) && i < |uvhead| && StrongBut(objs, K, cut) && CutOk(objs, marked, cut) &&
      NonWhite(marked) <= K
    requires MarkInv(objs, marked, cw, gray, again, weak, todo - SetOf(uvhead[..i]))
    ensures var uv := uvhead[i];
      && uv in objs && uv in marked && objs[uv].UpVal? && !marked[uv].color.Black?
      && Ok(UpValue(objs, objs[uv].cell), objs.Keys)
      && (marked[uv].color.Gray? ==> Ok(UpValue(objs, objs[uv].cell), K))
      && MarkInv(objs, marked, cw, gray, again, weak, todo - SetOf(uvhead[..i + 1]) + {uv})
  {
    var uv := uvhead[i];
    assert uv in uvhead;
    assert RefsIn(objs, objs[uv], objs.Keys);
    assert uv in K ==> StrongIn(objs, objs[uv], K);
    assert marked[uv].color.Gray? ==> uv in NonWhite(marked);
    assert todo - SetOf(uvhead[..i]) <= todo - SetOf(uvhead[..i + 1]) + {uv} by {
      assert uvhead[..i + 1] == uvhead[..i] + [uv];
    }
    Widen(objs, marked, cw, gray, again, weak, todo - SetOf(uvhead[..i]), todo - SetOf(uvhead[..i + 1]) + {uv});
  }

  /** The next userdata of marktmu, recoloured. */
  lemma TmuReady(objs: Heap, m0: Marks, marked: Marks, cw: bool, gray: seq<Ref>, again: seq<Ref>, weak: seq<Ref>,
                 tm: seq<Ref>, i: nat, K: set<Ref>)
    requires i < |tm| && tm[i] in objs && objs[tm[i]].Udata? && SetOf(tm) <= K && Grows(m0, marked, K)
    requires MarkInv(objs, marked, cw, gray, again, weak, SetOf(tm[i..]))
    ensures var u := tm[i];
      && u in marked && u in K
      && Grows(m0, marked[u := marked[u].(color := Black)], K)
      && NonWhite(marked) <= NonWhite(marked[u := marked[u].(color := Black)])
      && MarkInv(objs, marked[u := marked[u].(color := Black)], cw, gray, again, weak, SetOf(tm[i + 1..]) + {u})
  {
    var u := tm[i];
    assert u in tm;
    assert tm[i..] == [u] + tm[i + 1..];
    Reblacken(objs, marked, cw, gray, again, weak, SetOf(tm[i..]), u, K);
    var m1 := marked[u := marked[u].(color := Black)];
    Widen(objs, m1, cw, gray, again, weak, SetOf(tm[i..]) + {u}, SetOf(tm[i + 1..]) + {u});
    GrowsTrans(m0, marked, m1, K);
  }

  lemma TmuDone(m0: Marks, m1: Marks, m: Marks, tm: seq<Ref>, i: nat, K: set<Ref>)
    requires Grows(m0, m1, K) && Grows(m1, m, K) && i < |tm| && tm[i] in NonWhite(m) && SetOf(tm[..i]) <= NonWhite(m1)
    ensures Grows(m0, m, K) && SetOf(tm[..i + 1]) <= NonWhite(m)
  {
    GrowsTrans(m0, m1, m, K);
    assert tm[..i + 1] == tm[..i] + [tm[i]];
  }

  /** Before the atomic step, what the lists and open upvalues refer to need not be marked yet. */
  function PropagateTodo(uvhead: seq<Ref>, again: seq<Ref>, weak: seq<Ref>, tm: seq<Ref>): set<Ref> {
    SetOf(uvhead) + SetOf(again) + SetOf(weak) + SetOf(tm)
  }

  function MarkTodo(uvhead: seq<Ref>, again: seq<Ref>, weak: seq<Ref>, cut: set<Ref>): set<Ref> {
    SetOf(uvhead) + SetOf(again) + SetOf(weak) + cut
  }

  /** White objects refer to whatever they like: of tmudata only the marked userdata need be set apart. */
  lemma TodoMarked(objs: Heap, marked: Marks, cw: bool, gray: seq<Ref>, again: seq<Ref>, weak: seq<Ref>,
    uvhead: seq<Ref>, tm: seq<Ref>, cut: set<Ref>)
    requires MarkInv(objs, marked, cw, gray, again, weak, PropagateTodo(uvhead, again, weak, tm))
    requires cut == SetOf(tm) * NonWhite(marked)
    ensures MarkInv(objs, marked, cw, gray, again, weak, MarkTodo(uvhead, again, weak, cut))
  {
  }

  lemma AtomicTodo1(objs: Heap, marked: Marks, cw: bool, gray: seq<Ref>, uvhead: seq<Ref>, again: seq<Ref>,
    weak: seq<Ref>, cut: set<Ref>)
    requires MarkInv(objs, marked, cw, gray, again, weak, MarkTodo(uvhead, again, weak, cut) - SetOf(uvhead))
    ensures MarkInv(objs, marked, cw, gray, again, weak, SetOf(again) + SetOf(weak) + cut)
  {
    Widen(objs, marked, cw, gray, again, weak, MarkTodo(uvhead, again, weak, cut) - SetOf(uvhead),
          SetOf(again) + SetOf(weak) + cut);
  }

  lemma AtomicTodo2(objs: Heap, marked: Marks, cw: bool, again1: seq<Ref>, weak1: seq<Ref>, again: seq<Ref>,
    weak: seq<Ref>, cut: set<Ref>)
    requires MarkInv(objs, marked, cw, [], again, weak, SetOf(again1) + SetOf(weak1) + cut)
    requires SetOf(again1) <= SetOf(again) && SetOf(weak1) <= SetOf(weak)
    ensures MarkInv(objs, marked, cw, weak, again, [], cut + SetOf(again))
  {
    Widen(objs, marked, cw, [], again, weak, SetOf(again1) + SetOf(weak1) + cut, cut + SetOf(again) + SetOf(weak));
    StageWeak(objs, marked, cw, again, weak, cut + SetOf(again));
  }

  lemma AtomicTodo3(objs: Heap, marked: Marks, cw: bool, again1: seq<Ref>, again: seq<Ref>, weak: seq<Ref>,
    cut: set<Ref>)
    requires MarkInv(objs, marked, cw, [], again, weak, cut + SetOf(again1))
    requires SetOf(again1) <= SetOf(again)
    ensures MarkInv(objs, marked, cw, again, [], weak, cut)
  {
    Widen(objs, marked, cw, [], again, weak, cut + SetOf(again1), cut + SetOf(again));
    StageAgain(objs, marked, cw, again, weak, cut);
  }

  lemma ProgressInside(o: Heap, m: Marks, o': Heap, m': Marks, K: set<Ref>)
    requires Progress(o, m, o', m', K) && NonWhite(m) <= K
    ensures NonWhite(m') <= K
  {
  }

  lemma KeptKeys(o: Heap, m: Marks, o': Heap, m': Marks, K: set<Ref>)
    requires Progress(o, m, o', m', K)
    ensures o'.Keys == o.Keys && m'.Keys == m.Keys
  {
  }

  lemma ProgressGrowsTrans(o0: Heap, m0: Marks, o1: Heap, m1: Marks, m2: Marks, K: set<Ref>)
    requires Progress(o0, m0, o1, m1, K) && Grows(m1, m2, K) && NonWhite(m0) <= K
    ensures Progress(o0, m0, o1, m2, K) && NonWhite(m2) <= K
  {
    ProgressGrows(o1, m1, m2, K);
    ProgressTrans(o0, m0, o1, m1, o1, m2, K);
  }

  lemma RootsStay(mt: seq<Option<Ref>>, running: Ref, m2: Marks, m3: Marks, m4: Marks, K: set<Ref>)
    requires Grows(m2, m3, K) && NonWhite(m3) <= NonWhite(m4)
    requires running in NonWhite(m2) && MtIn(mt, NonWhite(m3))
    ensures running in NonWhite(m4) && MtIn(mt, NonWhite(m4))
  {
    assert NonWhite(m2) <= NonWhite(m3);
    forall i | 0 <= i < |mt| ensures OptOk(mt[i], NonWhite(m4)) { assert OptOk(mt[i], NonWhite(m3)); }
  }

  lemma GrowsMore(m: Marks, m': Marks, K: set<Ref>)
    requires Grows(m, m', K)
    ensures NonWhite(m) <= NonWhite(m')
  {
  }

  lemma ThreadsStay(o: Heap, m: Marks, o': Heap, m': Marks, K: set<Ref>)
    requires Progress(o, m, o', m', K)
    ensures forall x :: x in o && o[x].Thread? ==> x in o' && o'[x] == o[x]
  {
    KeptThreads(o, o');
  }
}
