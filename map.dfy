/** Tile-map addressing of a level: layers looked up by their stored id,
    cells addressed by a flat row-major index, raw cell values read with
    0 as the "empty" sentinel and written literally. */
module Map {

  const U32_BOUND: int := 0x1_0000_0000

  /** Rust's `u32`. */
  type u32 = x: int | 0 <= x < U32_BOUND

  datatype Option<T> = None | Some(value: T)

  /** The two ways an addressing operation ends the program instead of
      returning: no layer carries the wanted id (a message is printed and the
      process exits with code 1), or the flat index is past the end of the
      layer's data (the vector index panics). */
  datatype Failure =
    | LayerNotFound(layerIndex: u32)
    | IndexOutOfBounds(index: nat, length: nat)

  datatype Result<T> = Ok(value: T) | Err(failure: Failure)

  /** A tile coordinate: column `x`, row `y` and logical layer index `z`. */
  datatype Point = Point(x: u32, y: u32, z: u32)

  /** One layer of the level file. Its id and name are never reassigned; the
      cells of `data` are overwritten in place. */
  class Layer {
    const id: u32
    const name: string
    const data: array<u32>

    constructor (id: u32, name: string, cells: seq<u32>)
      ensures this.id == id && this.name == name
      ensures fresh(data) && data[..] == cells
    {
      this.id := id;
      this.name := name;
      this.data := new u32[|cells|](i requires 0 <= i < |cells| => cells[i]);
    }
  }

  /** Some layer of `layers` carries the stored id `id`. */
  ghost predicate HasLayerId(layers: seq<Layer>, id: int)
  {
    exists k :: 0 <= k < |layers| && layers[k].id == id
  }

  /** `p` is the position of the first layer of `layers` whose id is `id`. */
  ghost predicate IsFirstWithId(layers: seq<Layer>, id: int, p: int)
  {
    0 <= p < |layers| && layers[p].id == id &&
    forall k :: 0 <= k < p ==> layers[k].id != id
  }

  /** The position that a front-to-back search of `layers` for `id` stops at. */
  function FirstWithId(layers: seq<Layer>, id: int): (r: Option<nat>)
    ensures r.Some? ==> IsFirstWithId(layers, id, r.value)
    ensures r.None? ==> !HasLayerId(layers, id)
  {
    if |layers| == 0 then None
    else if layers[0].id == id then Some(0)
    else match FirstWithId(layers[1..], id)
      case Some(k) => Some(k + 1)
      case None => None
  }

  class MapData {
    var layers: seq<Layer>
    var height: u32
    var width: u32
    var tileheight: u32
    var tilewidth: u32

    /** Every layer owns its own data vector. */
    ghost predicate Valid()
      reads this
    {
      forall l1, l2 :: l1 in layers && l2 in layers && l1 != l2 ==> l1.data != l2.data
    }

    /** The u32 arithmetic of the lookup and of the index does not overflow. */
    predicate InRange(p: Point)
      reads this`height
    {
      p.z + 1 < U32_BOUND && p.y * height + p.x < U32_BOUND
    }

    /** A level as the tile map renders it: every layer holds `width * height`
        cells, and the ids 1 .. |layers| are all present. */
    ghost predicate WellFormed()
      reads this
    {
      |layers| < U32_BOUND && width * height <= U32_BOUND &&
      (forall l :: l in layers ==> l.data.Length == width * height) &&
      forall id :: 1 <= id <= |layers| ==> HasLayerId(layers, id)
    }

    /** No two layers carry the same id. */
    ghost predicate UniqueIds()
      reads this
    {
      forall l1, l2 :: l1 in layers && l2 in layers && l1.id == l2.id ==> l1 == l2
    }

    constructor (layers: seq<Layer>, height: u32, width: u32, tileheight: u32, tilewidth: u32)
      requires forall l1, l2 :: l1 in layers && l2 in layers && l1 != l2 ==> l1.data != l2.data
      ensures Valid()
      ensures this.layers == layers && this.height == height && this.width == width
      ensures this.tileheight == tileheight && this.tilewidth == tilewidth
    {
      this.layers := layers;
      this.height := height;
      this.width := width;
      this.tileheight := tileheight;
      this.tilewidth := tilewidth;
    }

    /** The layer for logical index `layerIndex` is the first one whose stored
        id is `layerIndex + 1`; its position in `layers` does not matter. */
    function GetLayer(layerIndex: u32): (r: Result<Layer>)
      reads this`layers
      requires layerIndex + 1 < U32_BOUND
      ensures r.Ok? ==> r.value in layers && r.value.id == layerIndex + 1
      ensures r.Ok? ==> exists p :: IsFirstWithId(layers, layerIndex + 1, p) && layers[p] == r.value
      ensures r.Err? <==> !HasLayerId(layers, layerIndex + 1)
      ensures r.Err? ==> r.failure == LayerNotFound(layerIndex)
    {
      match FirstWithId(layers, layerIndex + 1)
      case Some(p) => Ok(layers[p])
      case None => Err(LayerNotFound(layerIndex))
    }

    /** The same search as GetLayer, written as the loop that hands out the
        layer for writing. */
    method GetMutLayer(layerIndex: u32) returns (r: Result<Layer>)
      requires layerIndex + 1 < U32_BOUND
      ensures r == GetLayer(layerIndex)
    {
      for i := 0 to |layers|
        invariant forall k :: 0 <= k < i ==> layers[k].id != layerIndex + 1
      {
        if layers[i].id == layerIndex + 1 {
          return Ok(layers[i]);
        }
      }
      return Err(LayerNotFound(layerIndex));
    }

    /** The flat index of cell (x, y): rows of `height` cells each. Only
        `height` is read; `width` plays no part. */
    function XYToIndex(x: u32, y: u32): (r: nat)
      reads this`height
      requires y * height + x < U32_BOUND
      ensures x <= r
      ensures x < height ==> r / height == y && r % height == x
    {
      RowMajorDivMod(height, x, y);
      y * height + x
    }

    /** The data vector that the layer for `layerIndex` resolves to, if any:
        all that a read or a write at that layer index touches. */
    ghost function Footprint(layerIndex: u32): set<array<u32>>
      reads this`layers
      requires layerIndex + 1 < U32_BOUND
    {
      match GetLayer(layerIndex)
      case Ok(layer) => {layer.data}
      case Err(_) => {}
    }

    /** The tile at `p`: None for an empty cell (raw 0), otherwise the raw
        value minus one. */
    function GetIdInPoint(p: Point): (r: Result<Option<nat>>)
      reads this, Footprint(p.z)
      requires InRange(p)
      ensures GetLayer(p.z).Err? ==> r == Err(LayerNotFound(p.z))
      ensures GetLayer(p.z).Ok? && XYToIndex(p.x, p.y) >= GetLayer(p.z).value.data.Length ==>
                r == Err(IndexOutOfBounds(XYToIndex(p.x, p.y), GetLayer(p.z).value.data.Length))
      ensures r.Ok? <==> GetLayer(p.z).Ok? && XYToIndex(p.x, p.y) < GetLayer(p.z).value.data.Length
      ensures r.Ok? ==> var raw := GetLayer(p.z).value.data[XYToIndex(p.x, p.y)];
                (r.value.None? <==> raw == 0) && (r.value.Some? ==> r.value.value + 1 == raw)
    {
      match GetLayer(p.z)
      case Err(e) => Err(e)
      case Ok(layer) =>
        var index := XYToIndex(p.x, p.y);
        if index < layer.data.Length then
          var raw := layer.data[index];
          if raw == 0 then Ok(None) else Ok(Some(raw - 1))
        else
          Err(IndexOutOfBounds(index, layer.data.Length))
    }

    /** Stores `newId` as the raw value of cell `p`, with no offset. */
    method ChangeIdOnPoint(p: Point, newId: u32) returns (outcome: Result<()>)
      requires Valid() && InRange(p)
      modifies Footprint(p.z)
      ensures unchanged(this)
      ensures GetLayer(p.z).Err? ==> outcome == Err(LayerNotFound(p.z))
      ensures GetLayer(p.z).Ok? ==>
                var data, index := GetLayer(p.z).value.data, XYToIndex(p.x, p.y);
                (index >= data.Length ==>
                   outcome == Err(IndexOutOfBounds(index, data.Length)) && unchanged(data)) &&
                (index < data.Length ==>
                   outcome == Ok(()) && data[..] == old(data[..])[index := newId])
      ensures forall l :: l in layers && (GetLayer(p.z).Err? || l != GetLayer(p.z).value) ==>
                l.data[..] == old(l.data[..])
      ensures outcome.Ok? ==> GetIdInPoint(p) == Ok(if newId == 0 then None else Some(newId - 1))
      ensures forall q :: InRange(q) && (q.z != p.z || XYToIndex(q.x, q.y) != XYToIndex(p.x, p.y)) ==>
                GetIdInPoint(q) == old(GetIdInPoint(q))
    {
      var index := XYToIndex(p.x, p.y);
      var found := GetMutLayer(p.z);
      if found.Err? {
        return Err(found.failure);
      }
      var layer := found.value;
      if index < layer.data.Length {
        layer.data[index] := newId;
        outcome := Ok(());
      } else {
        outcome := Err(IndexOutOfBounds(index, layer.data.Length));
      }
      forall q | InRange(q) && (q.z != p.z || XYToIndex(q.x, q.y) != index)
        ensures GetIdInPoint(q) == old(GetIdInPoint(q))
      {
        if q.z != p.z && GetLayer(q.z).Ok? {
          assert unchanged(Footprint(q.z));
        }
      }
    }
  }

  /** Row-major arithmetic with rows of `h` cells: the row and the column
      are recovered from the flat index by division and remainder. */
  lemma RowMajorDivMod(h: nat, x: nat, y: nat)
    ensures y * h >= 0
    ensures x < h ==> (y * h + x) / h == y && (y * h + x) % h == x
  {
    if x >= h { return; }
    var q, r := (y * h + x) / h, (y * h + x) % h;
    assert q * h + r == y * h + x;
    if q > y {
      MulGap(q, y, h);
      assert false;
    } else if q < y {
      MulGap(y, q, h);
      assert false;
    }
  }

  /** Multiples of `h` at different factors lie at least `h` apart. */
  lemma MulGap(a: int, b: int, h: nat)
    requires a > b
    ensures a * h - b * h >= h
  {
    var d := a - b - 1;
    assert d * h >= 0;
    assert a * h == (b + d + 1) * h == b * h + d * h + h;
  }

  /** A cell of a grid `w` rows by `h` columns lies below `w * h`. */
  lemma RowMajorBound(h: nat, w: nat, x: nat, y: nat)
    requires x < h && y < w
    ensures y * h + x < w * h
  {
    MulGap(w, y, h);
  }

  /** Two maps with the same `height` address every cell alike, whatever
      their widths. */
  lemma XYToIndexIgnoresWidth(a: MapData, b: MapData, x: u32, y: u32)
    requires a.height == b.height && y * a.height + x < U32_BOUND
    ensures a.XYToIndex(x, y) == b.XYToIndex(x, y)
  {
  }

  /** Two cells of one row-major grid never share a flat index. */
  lemma XYToIndexInjective(m: MapData, x1: u32, y1: u32, x2: u32, y2: u32)
    requires x1 < m.height && x2 < m.height
    requires y1 * m.height + x1 < U32_BOUND && y2 * m.height + x2 < U32_BOUND
    requires m.XYToIndex(x1, y1) == m.XYToIndex(x2, y2)
    ensures x1 == x2 && y1 == y2
  {
  }

  /** With unique ids, the lookup does not depend on the order in which the
      level file lists its layers. */
  lemma GetLayerIgnoresOrder(a: MapData, b: MapData, layerIndex: u32)
    requires layerIndex + 1 < U32_BOUND
    requires multiset(a.layers) == multiset(b.layers) && a.UniqueIds()
    ensures a.GetLayer(layerIndex) == b.GetLayer(layerIndex)
  {
    var ra, rb := a.GetLayer(layerIndex), b.GetLayer(layerIndex);
    if rb.Ok? {
      assert rb.value in multiset(a.layers);
    }
    if ra.Ok? {
      assert ra.value in multiset(b.layers);
      assert rb.value in multiset(a.layers);
    }
  }

  /** The tile renderer's callback. */
  datatype BlockTile = BlockTile {
    function Sprite(p: Point, world: MapData): (r: Result<Option<nat>>)
      reads world, world.Footprint(p.z)
      requires world.InRange(p)
      ensures r == world.GetIdInPoint(p)
    {
      world.GetIdInPoint(p)
    }
  }

  /** On a well-formed level, every cell of the tile map's extent (x below
      `height`, y below `width`, z below the number of layers) yields a
      sprite: neither the exit nor the panic can happen. */
  lemma SpriteDefinedOnWellFormedMap(t: BlockTile, world: MapData, p: Point)
    requires world.WellFormed()
    requires p.x < world.height && p.y < world.width && p.z < |world.layers|
    ensures world.InRange(p) && t.Sprite(p, world).Ok?
  {
    RowMajorBound(world.height, world.width, p.x, p.y);
    assert HasLayerId(world.layers, p.z + 1);
  }

  /** A two-by-two level with one layer, read and then written through. */
  method ReadWriteTwoByTwo()
  {
    var ground := new Layer(1, "ground", [0, 1, 2, 0]);
    var m := new MapData([ground], 2, 2, 32, 32);
    assert m.GetLayer(0) == Ok(ground);
    assert m.GetIdInPoint(Point(0, 0, 0)) == Ok(None);
    assert m.GetIdInPoint(Point(1, 0, 0)) == Ok(Some(0));
    assert m.GetIdInPoint(Point(0, 1, 0)) == Ok(Some(1));
    assert m.GetIdInPoint(Point(0, 0, 1)) == Err(LayerNotFound(1));
    var outcome := m.ChangeIdOnPoint(Point(1, 1, 0), 5);
    assert outcome == Ok(());
    assert m.GetIdInPoint(Point(1, 1, 0)) == Ok(Some(4));
    assert m.GetIdInPoint(Point(0, 1, 0)) == Ok(Some(1));
  }
}
