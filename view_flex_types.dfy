/**
 * The enumerations of the older flex revision (View.Flex.cs). They share their
 * names with the newer revision's enumerations, so they live in a module of
 * their own; the node type carries one field of each.
 */
module ViewFlexTypes {

  /** Main-axis arrangement of the older revision. */
  datatype MainAxisAlign = Start | End | Center | SpaceEvenly | SpaceBetween

  /** Cross-axis alignment of the older revision (declared, never read by its layout). */
  datatype CrossAxisAlign = Start | Center | End

  datatype FlexDirection = Row | Column
}
