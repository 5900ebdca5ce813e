/** The part of the syntax tree the modelled passes look at, without its source-location wrappers. */
module Ast {
  // Every type form that the modelled passes do not inspect is an Opaque with its rendered text.
  datatype Type =
    | Name(name: string, args: seq<Type>)
    | Tuple(elems: seq<Type>)
    | Opaque(text: string)

  function Plain(name: string): Type {
    Name(name, [])
  }
}
