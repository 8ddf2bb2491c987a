/**
 * Terrain of the level: the three tile groups of the tile set and the rule
 * that turns one noise sample into the tile group of the top layer.
 */
module Terrain {

  /** The tile groups named "Sand", "Cobblestone" and "Water" in the tile set. */
  datatype TerrainKind = Sand | Cobblestone | Water

  /** One cell of a tile-map layer: no tile group yet, or one tile group. */
  datatype Cell = Empty | Filled(kind: TerrainKind)

  /** The map is 16 columns by 16 rows. */
  const Columns: nat := 16
  const Rows: nat := 16

  /**
   * A non-negative noise sample gives cobblestone, a negative one water;
   * sand never comes from the top layer.
   */
  function Classify(height: real): (kind: TerrainKind)
    ensures kind != Sand
    ensures kind == Cobblestone <==> height >= 0.0
    ensures kind == Water <==> height < 0.0
  {
    if height >= 0.0 then Cobblestone else Water
  }
}
