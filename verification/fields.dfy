/** Entity field data, shared by the live State, the Node's baseline and the change-set. */
module Fields {

  /** A PHP array with string keys, as an entity's field data. */
  type Data<V> = map<string, V>
}
