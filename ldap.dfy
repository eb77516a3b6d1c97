/** The search results handed back by the LDAP client library: an entry is a
    distinguished name and an ordered list of attributes, each attribute a
    name and an ordered list of string values. Only the fields the program
    reads are modelled. */
module Ldap {
  import opened ByteStrings

  datatype EntryAttribute = EntryAttribute(name: Bytes, values: seq<Bytes>)

  datatype Entry = Entry(dn: Bytes, attributes: seq<EntryAttribute>)

  /** Search scope and alias dereferencing policy, with every value the library
      defines; the program uses `WholeSubtree` and `NeverDerefAliases`. */
  datatype Scope = BaseObject | SingleLevel | WholeSubtree
  datatype DerefAliases = NeverDerefAliases | DerefInSearching | DerefFindingBaseObj | DerefAlways

  /** The arguments of a search request, in the library's order, except the
      last one, the request controls, which the program always passes as nil. */
  datatype SearchRequest = SearchRequest(
    baseDN: Bytes,
    scope: Scope,
    derefAliases: DerefAliases,
    sizeLimit: int,
    timeLimit: int,
    typesOnly: bool,
    filter: Bytes,
    attributes: seq<Bytes>)
}
