/**
 * How grid entities are presented: which of the three colour cameras sees an
 * entity, what colour its material has, and where in the world it stands.
 * Colour channels are fully off (0) or fully on (1); world coordinates are the
 * integers the grid mapping produces before their conversion to floats.
 * Component storage is one array per component, indexed like the entity list.
 */
module ObjectRendering {
  import opened Wrappers
  import opened GameMechanics

  /** The camera layers a colour is drawn on: 1 is the red camera, 2 the green one, 3 the blue one. */
  function LayersFromGameColor(c: GameColor): (layers: set<nat>)
    ensures layers != {} && layers <= {1, 2, 3}
  {
    match c
    case Red => {1}
    case Green => {2}
    case Blue => {3}
    case Yellow => {1, 2}
    case Cyan => {2, 3}
    case Pink => {1, 3}
    case White => {1, 2, 3}
  }

  /** A material colour with each channel 0 or 1. */
  datatype Rgb = Rgb(r: int, g: int, b: int)

  /** The material colour: a channel is on exactly when the camera of that channel draws the colour. */
  function GetBevyColor(c: GameColor): (rgb: Rgb)
    ensures rgb.r in {0, 1} && rgb.g in {0, 1} && rgb.b in {0, 1}
    ensures rgb.r == 1 <==> 1 in LayersFromGameColor(c)
    ensures rgb.g == 1 <==> 2 in LayersFromGameColor(c)
    ensures rgb.b == 1 <==> 3 in LayersFromGameColor(c)
  {
    match c
    case Red => Rgb(1, 0, 0)
    case Green => Rgb(0, 1, 0)
    case Blue => Rgb(0, 0, 1)
    case Yellow => Rgb(1, 1, 0)
    case Cyan => Rgb(0, 1, 1)
    case Pink => Rgb(1, 0, 1)
    case White => Rgb(1, 1, 1)
  }

  /** Reads a colour back from the cameras that draw it. */
  function GameColorFromLayers(layers: set<nat>): Option<GameColor> {
    var red, green, blue := 1 in layers, 2 in layers, 3 in layers;
    if red && green && blue then Some(White)
    else if red && green then Some(Yellow)
    else if green && blue then Some(Cyan)
    else if red && blue then Some(Pink)
    else if red then Some(Red)
    else if green then Some(Green)
    else if blue then Some(Blue)
    else None
  }

  lemma LayersRoundTrip(c: GameColor)
    ensures GameColorFromLayers(LayersFromGameColor(c)) == Some(c)
  {
  }

  /** No two colours are drawn on the same cameras. */
  lemma LayersInjective(c: GameColor, d: GameColor)
    ensures LayersFromGameColor(c) == LayersFromGameColor(d) ==> c == d
  {
    LayersRoundTrip(c);
    LayersRoundTrip(d);
  }

  /** Every non-empty choice of the three cameras is the layer set of exactly one colour. */
  lemma EveryCameraChoiceHasAColor(layers: set<nat>)
    requires layers != {} && layers <= {1, 2, 3}
    ensures GameColorFromLayers(layers).Some?
    ensures LayersFromGameColor(GameColorFromLayers(layers).value) == layers
  {
    var x :| x in layers;
    assert x == 1 || x == 2 || x == 3;
    var c := GameColorFromLayers(layers).value;
    var expected := LayersFromGameColor(c);
    forall n | n in layers
      ensures n in expected
    {
      assert n == 1 || n == 2 || n == 3;
    }
    assert expected <= layers;
  }

  // ---------------------------------------------------------------------------
  // Grid to world
  // ---------------------------------------------------------------------------

  /** A world position: across, up, and into the screen. */
  datatype Translation = Translation(x: int, height: int, depth: int)

  /** Grid rows are counted from the bottom, world depth from the top. */
  function Depth(y: int): int {
    GridSizeY - y - 1
  }

  /** Where an entity on cell `p` is drawn: column as it is, one unit up, row flipped into depth. */
  function GridToTranslation(p: GridPos): (t: Translation)
    ensures t.height == 1
    ensures InGrid(p) <==> 0 <= t.x < GridSizeX && 0 <= t.depth < GridSizeY
  {
    Translation(p.x, 1, Depth(p.y))
  }

  function TranslationToGrid(t: Translation): GridPos {
    GridPos(t.x, Depth(t.depth))
  }

  lemma DepthIsInvolution(y: int)
    ensures Depth(Depth(y)) == y
  {
  }

  lemma TranslationRoundTrip(p: GridPos)
    ensures TranslationToGrid(GridToTranslation(p)) == p
  {
  }

  /** Two different cells are never drawn at the same place. */
  lemma GridToTranslationInjective(p: GridPos, q: GridPos)
    ensures GridToTranslation(p) == GridToTranslation(q) ==> p == q
  {
    TranslationRoundTrip(p);
    TranslationRoundTrip(q);
  }

  // ---------------------------------------------------------------------------
  // Update systems
  // ---------------------------------------------------------------------------

  /** Entities whose colour changed get exactly that colour's camera layers; the others keep theirs. */
  method UpdateVisibility(objects: seq<GridObject>, colorChanged: seq<bool>, layers: array<set<nat>>)
    requires |colorChanged| == |objects| == layers.Length
    modifies layers
    ensures forall i :: 0 <= i < layers.Length ==>
      layers[i] == if colorChanged[i] then LayersFromGameColor(objects[i].color) else old(layers[i])
  {
    for i := 0 to |objects|
      invariant forall j :: 0 <= j < i ==>
        layers[j] == if colorChanged[j] then LayersFromGameColor(objects[j].color) else old(layers[j])
      invariant forall j :: i <= j < layers.Length ==> layers[j] == old(layers[j])
    {
      if colorChanged[i] {
        layers[i] := LayersFromGameColor(objects[i].color);
      }
    }
  }

  /** Entities whose colour changed get that colour's material colour; the others keep theirs. */
  method UpdateMaterialColor(objects: seq<GridObject>, colorChanged: seq<bool>, materials: array<Rgb>)
    requires |colorChanged| == |objects| == materials.Length
    modifies materials
    ensures forall i :: 0 <= i < materials.Length ==>
      materials[i] == if colorChanged[i] then GetBevyColor(objects[i].color) else old(materials[i])
  {
    for i := 0 to |objects|
      invariant forall j :: 0 <= j < i ==>
        materials[j] == if colorChanged[j] then GetBevyColor(objects[j].color) else old(materials[j])
      invariant forall j :: i <= j < materials.Length ==> materials[j] == old(materials[j])
    {
      if colorChanged[i] {
        materials[i] := GetBevyColor(objects[i].color);
      }
    }
  }

  /** Entities whose cell was set or changed are moved to that cell's world position; the others stay. */
  method UpdateTransformFromGrid(objects: seq<GridObject>, posChanged: seq<bool>, translations: array<Translation>)
    requires |posChanged| == |objects| == translations.Length
    modifies translations
    ensures forall i :: 0 <= i < translations.Length ==>
      translations[i] == if posChanged[i] then GridToTranslation(objects[i].pos) else old(translations[i])
  {
    for i := 0 to |objects|
      invariant forall j :: 0 <= j < i ==>
        translations[j] == if posChanged[j] then GridToTranslation(objects[j].pos) else old(translations[j])
      invariant forall j :: i <= j < translations.Length ==> translations[j] == old(translations[j])
    {
      if posChanged[i] {
        translations[i] := GridToTranslation(objects[i].pos);
      }
    }
  }
}
