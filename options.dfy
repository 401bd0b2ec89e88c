/** An optional value: an absent component, a query that matched nothing. */
module Options {

  datatype Option<+T> = None | Some(value: T)
}
