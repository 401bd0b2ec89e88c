/** The engine's store of colour materials: a table from handles to
    materials that grows when a material is added.  Adding never overwrites
    an existing entry; the handle it returns is fresh. */
module Assets {

  import opened Options

  type MaterialHandle = nat

  datatype AlphaMode = Opaque | Mask(cutoff: real) | Blend

  /** A colour in sRGB space with its alpha channel, and how alpha is used. */
  datatype ColorMaterial = ColorMaterial(red: real, green: real, blue: real, alpha: real, alphaMode: AlphaMode)

  /** Every handle in use lies below the next one to be given out. */
  ghost predicate HandlesBelow(assets: map<MaterialHandle, ColorMaterial>, next: MaterialHandle) {
    forall h :: h in assets ==> h < next
  }

  class MaterialStore {
    var assets: map<MaterialHandle, ColorMaterial>
    var next: MaterialHandle

    ghost predicate Valid()
      reads this
    {
      HandlesBelow(assets, next)
    }

    constructor (initial: map<MaterialHandle, ColorMaterial>, next: MaterialHandle)
      requires HandlesBelow(initial, next)
      ensures Valid() && assets == initial && this.next == next
    {
      assets := initial;
      this.next := next;
    }

    /** The material behind a handle, if the store still holds it. */
    function Get(h: MaterialHandle): (m: Option<ColorMaterial>)
      reads this
      ensures m.Some? <==> h in assets
      ensures m.Some? ==> m.value == assets[h]
    {
      if h in assets then Some(assets[h]) else None
    }

    /** Store a new material under a fresh handle. */
    method Add(m: ColorMaterial) returns (h: MaterialHandle)
      requires Valid()
      modifies this
      ensures Valid()
      ensures h == old(next) && h !in old(assets)
      ensures assets == old(assets)[h := m] && next == old(next) + 1
    {
      h := next;
      assets := assets[h := m];
      next := next + 1;
    }
  }
}
