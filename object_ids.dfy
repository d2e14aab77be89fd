/** Document identifiers.  Every collection draws its `_id`s from one counter,
    so an identifier names at most one document of any kind. */
module ObjectIds {
  type ObjectId = nat
}
