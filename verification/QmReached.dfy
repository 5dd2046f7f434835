/** What the counters do after a shrink, reached from a fresh arena by requests. */
module QmReached {
  import opened FmHash
  import opened FmBlocks
  import opened QmLists
  import opened QmBlocks
  import opened QmCount
  import opened QMalloc

  /** The arena after `malloc(400)` on 832 bytes: the rest is worth a fragment. */
  lemma FirstTaken(a: int)
    ensures var x := Block(a, 832 + EXTRA, true);
            QTaken([x], 0, 400) == [Block(a, 400 + EXTRA, false), Block(a + 432, 400 + EXTRA, true)]
  {
  }

  /** And after shrinking that to 16. */
  lemma ThenShrunk(a: int)
    ensures var b := [Block(a, 400 + EXTRA, false), Block(a + 432, 400 + EXTRA, true)];
            WorthSplit(Payload(b[0]), 16)
            && SplitOff(b, 0, 16) == [Block(a, 16 + EXTRA, false), Block(a + 48, 352 + EXTRA, true),
               Block(a + 432, 400 + EXTRA, true)]
  {
  }

  /** Free bytes before and after the shrink. */
  lemma FreeBytes(a: int)
    ensures Payloads([Block(a, 400 + EXTRA, false), Block(a + 432, 400 + EXTRA, true)], true) == 400
    ensures Payloads([Block(a, 16 + EXTRA, false), Block(a + 48, 352 + EXTRA, true),
              Block(a + 432, 400 + EXTRA, true)], true) == 752
  {
    hide Payloads;
    var x, y, z := Block(a, 16 + EXTRA, false), Block(a + 48, 352 + EXTRA, true), Block(a + 432, 400 + EXTRA, true);
    PayloadsTwo(Block(a, 400 + EXTRA, false), z, true);
    assert [x, y, z] == [x] + [y, z];
    PayloadsAppend([x], [y, z], true);
    PayloadsOne(x, true);
    PayloadsTwo(y, z, true);
  }

  lemma RoundedHere()
    ensures QmRoundUp(400) == 400 && QmRoundUp(16) == 16
  {
  }

  /** `malloc(400)` and `realloc` to 16 on an arena of 832 bytes. */
  method Shrunk() returns (qm: Arena, ghost a: int)
    ensures fresh(qm) && fresh(qm.freeHash) && qm.Shape({}) && qm.size - qm.realUsed == 368
    ensures qm.blocks == [Block(a, 16 + EXTRA, false), Block(a + 48, 352 + EXTRA, true),
              Block(a + 432, 400 + EXTRA, true)]
  {
    hide QTaken; hide SplitOff; hide QSound; hide WorthSplit; hide QmRoundUp; hide NoFreePair; hide Live;
    hide Payloads; hide Tiled; hide Refuses;
    qm := new Arena.Layout(16, QM_INIT_OVERHEAD + 832);
    ghost var k := 0;
    a := qm.blocks[0].addr;
    RoundedHere();
    FreeBytes(a);
    FirstTaken(a);
    ThenShrunk(a);
    assert qm.blocks[0] == Block(a, 832 + EXTRA, true);
    assert qm.blocks[0] in qm.blocks;
    var x;
    x, k := qm.Malloc(400);
    assert k == 0;
    x := qm.ReallocShrink(x, 16, 0);
  }

  /** Another `malloc(400)` is refused, with a free fragment of 400. */
  method RefusedAfterShrink() returns (qm: Arena, p: int)
    ensures fresh(qm) && qm.Shape({}) && p == 0 && !NoneHolds(qm.blocks, 400)
  {
    hide QSound; hide QmRoundUp; hide NoFreePair; hide Live; hide Payloads; hide Tiled;
    ghost var a;
    qm, a := Shrunk();
    RoundedHere();
    assert qm.blocks[2] in qm.blocks;
    ghost var k;
    p, k := qm.Malloc(400);
  }
}
