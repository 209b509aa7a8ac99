/** The optional value used for absent record fields and absent averages. */
module Optional {

  datatype Option<+T> = None | Some(value: T)
}
