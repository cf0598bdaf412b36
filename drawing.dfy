/** Properties of DXYN, the sprite draw of src/chip8.rs:383-409. */
module Drawing {
  import opened ChipTypes
  import opened Semantics

  /** Once a sprite row of a draw faults, the whole draw reports that fault. */
  lemma {:induction false} RowFaultPersists(memory: seq<Byte>, i: int, v: seq<Byte>, x: Nibble, y: Nibble,
                                            gfx: seq<Byte>, width: nat, k: nat, k': nat)
    requires |v| == RegisterCount && |gfx| == GfxSize && width <= SpriteWidth && k <= k'
    requires DrawRows(memory, i, v, x, y, gfx, k, width).Err?
    ensures DrawRows(memory, i, v, x, y, gfx, k', width) == DrawRows(memory, i, v, x, y, gfx, k, width)
    decreases k'
  {
    if k' > k {
      RowFaultPersists(memory, i, v, x, y, gfx, width, k, k' - 1);
    }
  }

  /** Once a pixel of a sprite row faults, the whole row reports that fault. */
  lemma {:induction false} ColumnFaultPersists(pixel: Byte, v: seq<Byte>, x: Nibble, y: Nibble, c: Canvas,
                                               row: nat, k: nat, k': nat)
    requires |v| == RegisterCount && |c.gfx| == GfxSize && k <= k' <= SpriteWidth
    requires DrawColumns(pixel, v, x, y, c, row, k).Err?
    ensures DrawColumns(pixel, v, x, y, c, row, k') == DrawColumns(pixel, v, x, y, c, row, k)
    decreases k'
  {
    if k' > k {
      ColumnFaultPersists(pixel, v, x, y, c, row, k, k' - 1);
    }
  }

  // ---------------------------------------------------------------------------------------
  // When neither X nor Y is F, the sprite's position does not move while VF changes, and a
  // draw is an XOR of the framebuffer with the set of cells the sprite covers.

  /** The cells that the set bits among columns 0..cols-1 of sprite row row cover, drawn
      at (vx, vy); they lie in the cols cells from the row's first one. */
  function RowCover(pixel: Byte, vx: int, vy: int, row: nat, cols: nat): (s: set<int>)
    requires cols <= SpriteWidth
    ensures forall p :: p in s ==> Position(vx, vy, row, 0) <= p < Position(vx, vy, row, 0) + cols
  {
    if cols == 0 then {}
    else
      RowCover(pixel, vx, vy, row, cols - 1) +
      (if SpriteBit(pixel, cols - 1) then {Position(vx, vy, row, cols - 1)} else {})
  }

  /** The cells that the first rows sprite rows of width pixels, read from address i on,
      cover; they lie before the first cell of row rows. */
  function Cover(memory: seq<Byte>, i: int, vx: int, vy: int, rows: nat, width: nat): (s: set<int>)
    requires width <= SpriteWidth
    ensures forall p :: p in s ==> p < Position(vx, vy, rows, 0)
  {
    if rows == 0 then {}
    else
      Cover(memory, i, vx, vy, rows - 1, width) +
      (if 0 <= i + rows - 1 < |memory| then RowCover(memory[i + rows - 1], vx, vy, rows - 1, width) else {})
  }

  /** Every cell of s is on the screen. */
  predicate OnScreen(s: set<int>) {
    forall p :: p in s ==> 0 <= p < GfxSize
  }

  /** Whether a draw of the first rows sprite rows touches no address outside memory and
      no cell outside the framebuffer. */
  predicate Fits(memory: seq<Byte>, i: int, vx: int, vy: int, rows: nat, width: nat)
    requires width <= SpriteWidth
  {
    rows == 0 ||
    (Fits(memory, i, vx, vy, rows - 1, width) && 0 <= i + rows - 1 < |memory| &&
     OnScreen(RowCover(memory[i + rows - 1], vx, vy, rows - 1, width)))
  }

  /** The framebuffer with the cells of s flipped. */
  function FlipAt(gfx: seq<Byte>, s: set<int>): (r: seq<Byte>)
    ensures |r| == |gfx|
  {
    seq(|gfx|, p requires 0 <= p < |gfx| => if p in s then Flip(gfx[p]) else gfx[p])
  }

  /** Whether some cell of s is set in gfx. */
  predicate Collides(gfx: seq<Byte>, s: set<int>) {
    exists p :: p in s && 0 <= p < |gfx| && gfx[p] == 1
  }

  /** Flipping the cells of s and then those of t, disjoint from s, flips those of s + t. */
  lemma FlipAtUnion(gfx: seq<Byte>, s: set<int>, t: set<int>)
    requires s !! t
    ensures FlipAt(FlipAt(gfx, s), t) == FlipAt(gfx, s + t)
  {
    var a, b := FlipAt(FlipAt(gfx, s), t), FlipAt(gfx, s + t);
    assert |a| == |b|;
    forall p | 0 <= p < |a|
      ensures a[p] == b[p]
    {
    }
  }

  /** Flipping the same cells twice restores the framebuffer. */
  lemma FlipAtTwice(gfx: seq<Byte>, s: set<int>)
    ensures FlipAt(FlipAt(gfx, s), s) == gfx
  {
    var a := FlipAt(FlipAt(gfx, s), s);
    assert |a| == |gfx|;
    forall p | 0 <= p < |a|
      ensures a[p] == gfx[p]
    {
    }
  }

  /** One more pixel of a sprite row, drawn after the cells of s0 (which it is not among)
      have been flipped and VF has recorded their collision. */
  lemma PixelEffect(pixel: Byte, v: seq<Byte>, x: Nibble, y: Nibble, c: Canvas, row: nat, col: nat, s0: set<int>)
    requires |v| == RegisterCount && |c.gfx| == GfxSize && col < SpriteWidth
    requires x != Flag && y != Flag && OnScreen(s0) && Position(v[x], v[y], row, col) !in s0
    ensures var q := Position(v[x], v[y], row, col);
      var s := s0 + (if SpriteBit(pixel, col) then {q} else {});
      var d := DrawPixel(pixel, v, x, y, Canvas(FlipAt(c.gfx, s0), if Collides(c.gfx, s0) then 1 else c.vf), row, col);
      (d.Ok? <==> OnScreen(s)) &&
      (d.Ok? ==> d.value == Canvas(FlipAt(c.gfx, s), if Collides(c.gfx, s) then 1 else c.vf))
  {
    var q := Position(v[x], v[y], row, col);
    var g, vf := FlipAt(c.gfx, s0), if Collides(c.gfx, s0) then 1 else c.vf;
    var d := DrawPixel(pixel, v, x, y, Canvas(g, vf), row, col);
    if SpriteBit(pixel, col) {
      var s := s0 + {q};
      if q < GfxSize {
        assert d == Ok(Canvas(g[q := Flip(g[q])], if g[q] == 1 then 1 else vf));
        assert g[q] == c.gfx[q];
        assert g[q := Flip(g[q])] == FlipAt(c.gfx, s) by {
          FlipAtUnion(c.gfx, s0, {q});
        }
        assert Collides(c.gfx, s) <==> Collides(c.gfx, s0) || c.gfx[q] == 1;
      } else {
        assert d.Err? && !OnScreen(s);
      }
    } else {
      assert d == Ok(Canvas(g, vf));
    }
  }

  /** The pixels of one sprite row, drawn onto c: they fault exactly when a set bit falls
      off the screen, and otherwise flip the covered cells and raise VF when one of them
      was set. */
  lemma {:induction false} ColumnsEffect(pixel: Byte, v: seq<Byte>, x: Nibble, y: Nibble, c: Canvas,
                                         row: nat, cols: nat)
    requires |v| == RegisterCount && |c.gfx| == GfxSize && cols <= SpriteWidth
    requires x != Flag && y != Flag
    ensures var s, d := RowCover(pixel, v[x], v[y], row, cols), DrawColumns(pixel, v, x, y, c, row, cols);
      (d.Ok? <==> OnScreen(s)) &&
      (d.Ok? ==> d.value == Canvas(FlipAt(c.gfx, s), if Collides(c.gfx, s) then 1 else c.vf))
    decreases cols
  {
    if cols > 0 {
      var col := cols - 1;
      var s0 := RowCover(pixel, v[x], v[y], row, col);
      var s := RowCover(pixel, v[x], v[y], row, cols);
      var d := DrawColumns(pixel, v, x, y, c, row, cols);
      ColumnsEffect(pixel, v, x, y, c, row, col);
      var prev := DrawColumns(pixel, v, x, y, c, row, col);
      if prev.Err? {
        assert d == prev;
        assert s0 <= s;
      } else {
        assert d == DrawPixel(pixel, v, x, y, prev.value, row, col);
        PixelEffect(pixel, v, x, y, c, row, col, s0);
      }
    }
  }

  /** One sprite row, read from address i + row and drawn onto c: it faults when the
      address is outside memory, and otherwise acts as its pixels do. */
  lemma RowEffect(memory: seq<Byte>, i: int, v: seq<Byte>, x: Nibble, y: Nibble, c: Canvas, row: nat, width: nat)
    requires |memory| == MemorySize && |v| == RegisterCount && |c.gfx| == GfxSize && width <= SpriteWidth
    requires x != Flag && y != Flag
    ensures !(0 <= i + row < |memory|) ==> DrawRow(memory, i, v, x, y, c, row, width).Err?
    ensures 0 <= i + row < |memory| ==>
      var s, d := RowCover(memory[i + row], v[x], v[y], row, width), DrawRow(memory, i, v, x, y, c, row, width);
      (d.Ok? <==> OnScreen(s)) &&
      (d.Ok? ==> d.value == Canvas(FlipAt(c.gfx, s), if Collides(c.gfx, s) then 1 else c.vf))
  {
    if 0 <= i + row < |memory| {
      ColumnsEffect(memory[i + row], v, x, y, c, row, width);
    }
  }

  /** A row drawn after earlier ones: the cells it covers are new, and the collision flag
      of the pair is that of the union. */
  lemma CombineRows(gfx: seq<Byte>, s0: set<int>, t: set<int>, vf0: Byte)
    requires s0 !! t && vf0 == (if Collides(gfx, s0) then 1 else 0)
    ensures FlipAt(FlipAt(gfx, s0), t) == FlipAt(gfx, s0 + t)
    ensures (if Collides(FlipAt(gfx, s0), t) then 1 else vf0) == (if Collides(gfx, s0 + t) then 1 else 0)
  {
    FlipAtUnion(gfx, s0, t);
    assert Collides(FlipAt(gfx, s0), t) <==> Collides(gfx, t);
  }

  /** What a draw of the first rows sprite rows does, in terms of the cells they cover. */
  predicate RowsAct(memory: seq<Byte>, i: int, v: seq<Byte>, x: Nibble, y: Nibble, gfx: seq<Byte>, rows: nat, width: nat)
    requires |v| == RegisterCount && |gfx| == GfxSize && width <= SpriteWidth
  {
    var s, d := Cover(memory, i, v[x], v[y], rows, width), DrawRows(memory, i, v, x, y, gfx, rows, width);
    (d.Ok? <==> Fits(memory, i, v[x], v[y], rows, width)) &&
    (d.Ok? ==> d.value == Canvas(FlipAt(gfx, s), if Collides(gfx, s) then 1 else 0))
  }

  /** If the first row rows act as their cells say, so do the first row + 1. */
  lemma RowsStep(memory: seq<Byte>, i: int, v: seq<Byte>, x: Nibble, y: Nibble, gfx: seq<Byte>, row: nat, width: nat)
    requires |memory| == MemorySize && |v| == RegisterCount && |gfx| == GfxSize && width <= SpriteWidth
    requires x != Flag && y != Flag && RowsAct(memory, i, v, x, y, gfx, row, width)
    ensures RowsAct(memory, i, v, x, y, gfx, row + 1, width)
  {
    var prev := DrawRows(memory, i, v, x, y, gfx, row, width);
    var d := DrawRows(memory, i, v, x, y, gfx, row + 1, width);
    if prev.Err? {
      assert d == prev;
      assert !Fits(memory, i, v[x], v[y], row + 1, width);
    } else {
      var c := prev.value;
      assert d == DrawRow(memory, i, v, x, y, c, row, width);
      RowEffect(memory, i, v, x, y, c, row, width);
      if 0 <= i + row < |memory| {
        var s0 := Cover(memory, i, v[x], v[y], row, width);
        var t := RowCover(memory[i + row], v[x], v[y], row, width);
        assert Cover(memory, i, v[x], v[y], row + 1, width) == s0 + t;
        assert s0 !! t;
        assert Fits(memory, i, v[x], v[y], row + 1, width) <==> OnScreen(t);
        CombineRows(gfx, s0, t, c.vf);
      } else {
        assert !Fits(memory, i, v[x], v[y], row + 1, width);
      }
    }
  }

  /** The first rows sprite rows of a draw that starts from framebuffer gfx with VF clear:
      they fault exactly when the sprite does not fit, and otherwise flip the covered cells
      and leave VF set exactly when one of them was set. */
  lemma {:induction false} RowsEffect(memory: seq<Byte>, i: int, v: seq<Byte>, x: Nibble, y: Nibble,
                                      gfx: seq<Byte>, rows: nat, width: nat)
    requires |memory| == MemorySize && |v| == RegisterCount && |gfx| == GfxSize && width <= SpriteWidth
    requires x != Flag && y != Flag
    ensures RowsAct(memory, i, v, x, y, gfx, rows, width)
    decreases rows
  {
    if rows == 0 {
      assert FlipAt(gfx, {}) == gfx;
    } else {
      RowsEffect(memory, i, v, x, y, gfx, rows - 1, width);
      RowsStep(memory, i, v, x, y, gfx, rows - 1, width);
    }
  }

  /** A sprite that fits covers only cells of the screen. */
  lemma {:induction false} FitsOnScreen(memory: seq<Byte>, i: int, vx: int, vy: int, rows: nat, width: nat)
    requires width <= SpriteWidth && Fits(memory, i, vx, vy, rows, width)
    ensures OnScreen(Cover(memory, i, vx, vy, rows, width))
    decreases rows
  {
    if rows > 0 {
      FitsOnScreen(memory, i, vx, vy, rows - 1, width);
    }
  }

  /** Whether some cell of s is clear in gfx. */
  predicate Misses(gfx: seq<Byte>, s: set<int>) {
    exists p :: p in s && 0 <= p < |gfx| && gfx[p] == 0
  }

  /** A flipped cell is lit exactly when it was clear. */
  lemma FlipLit(c: Byte)
    ensures Flip(c) == 1 <==> c == 0
  {
    if c % 2 == 1 {
      assert Flip(c) == c - 1;
    }
  }

  /** After the cells of s are flipped, one of them is lit exactly when one was clear. */
  lemma CollidesFlipped(gfx: seq<Byte>, s: set<int>)
    ensures Collides(FlipAt(gfx, s), s) <==> Misses(gfx, s)
  {
    var g := FlipAt(gfx, s);
    if Misses(gfx, s) {
      var p :| p in s && 0 <= p < |gfx| && gfx[p] == 0;
      FlipLit(gfx[p]);
      assert g[p] == 1;
    }
    if Collides(g, s) {
      var p :| p in s && 0 <= p < |g| && g[p] == 1;
      FlipLit(gfx[p]);
    }
  }

  /** The cells of the sprite that DXYN draws from machine m. */
  function Sprite(m: Machine, x: Nibble, y: Nibble, n: Nibble): set<int>
    requires WellFormed(m)
  {
    Cover(m.memory, m.i, m.v[x], m.v[y], n, SpriteWidth)
  }

  /** DXYN with X and Y other than F: it faults exactly when the sprite does not fit;
      otherwise it XORs the sprite's cells into the framebuffer, sets VF exactly when one of
      them was lit, raises the draw semaphore and moves to the next instruction. */
  lemma DrawXor(m: Machine, x: Nibble, y: Nibble, n: Nibble)
    requires WellFormed(m) && m.pc + 1 < MemorySize && x != Flag && y != Flag
    ensures var s, r := Sprite(m, x, y, n), DrawEffect(m, x, y, n);
      (r.Ok? <==> Fits(m.memory, m.i, m.v[x], m.v[y], n, SpriteWidth)) &&
      (r.Ok? ==> r.value == m.(gfx := FlipAt(m.gfx, s), v := m.v[Flag := if Collides(m.gfx, s) then 1 else 0],
                               drawSema := true, pc := m.pc + 2))
  {
    RowsEffect(m.memory, m.i, m.v, x, y, m.gfx, n, SpriteWidth);
  }

  /** Drawing the same sprite twice erases it: the second draw cannot fault, gives back the
      framebuffer the first one started from, and reports a collision exactly when the
      sprite covers a cell that was clear before the first draw. */
  lemma DrawTwice(m: Machine, x: Nibble, y: Nibble, n: Nibble)
    requires WellFormed(m) && m.pc + 3 < MemorySize && x != Flag && y != Flag
    requires DrawEffect(m, x, y, n).Ok?
    ensures var m1 := DrawEffect(m, x, y, n).value; var r := DrawEffect(m1, x, y, n);
      r.Ok? &&
      r.value == m.(v := m.v[Flag := if Misses(m.gfx, Sprite(m, x, y, n)) then 1 else 0],
                    drawSema := true, pc := m.pc + 4)
  {
    var s := Sprite(m, x, y, n);
    DrawXor(m, x, y, n);
    var m1 := DrawEffect(m, x, y, n).value;
    assert Sprite(m1, x, y, n) == s;
    DrawXor(m1, x, y, n);
    FlipAtTwice(m.gfx, s);
    var g := FlipAt(m.gfx, s);
    CollidesFlipped(m.gfx, s);
    assert m1.v[Flag := if Collides(g, s) then 1 else 0] == m.v[Flag := if Misses(m.gfx, s) then 1 else 0];
  }

  /** On a blank screen a sprite never collides, and drawing it again collides exactly when
      it has a lit pixel. */
  lemma DrawOnBlank(m: Machine, x: Nibble, y: Nibble, n: Nibble)
    requires WellFormed(m) && m.pc + 3 < MemorySize && x != Flag && y != Flag
    requires m.gfx == Zeros(GfxSize) && DrawEffect(m, x, y, n).Ok?
    ensures var m1 := DrawEffect(m, x, y, n).value; var r := DrawEffect(m1, x, y, n);
      m1.v[Flag] == 0 && r.Ok? && r.value.gfx == m.gfx && (r.value.v[Flag] == 1 <==> Sprite(m, x, y, n) != {})
  {
    var s := Sprite(m, x, y, n);
    DrawXor(m, x, y, n);
    DrawTwice(m, x, y, n);
    FitsOnScreen(m.memory, m.i, m.v[x], m.v[y], n, SpriteWidth);
    if s != {} {
      var p :| p in s;
      assert m.gfx[p] == 0;
    }
  }
}
