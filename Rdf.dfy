/** RDF terms, triples and the fixed vocabulary the SHACL test reads.
    A graph is the list of triples that rdflib enumerates, in that order. */
module Rdf {

  datatype Option<+T> = None | Some(value: T)

  /** An RDF term: an IRI, a blank node or a literal with its lexical form and an
      optional datatype IRI (an untyped literal has none). Two terms are equal only
      when they are of the same kind and agree on every component, as rdflib compares them. */
  datatype Term =
    | URIRef(iri: string)
    | BNode(id: string)
    | Literal(lex: string, dt: Option<string>)

  datatype Triple = Triple(s: Term, p: Term, o: Term)

  const RdfNs := "http://www.w3.org/1999/02/22-rdf-syntax-ns#"
  const ShNs := "http://www.w3.org/ns/shacl#"
  const XsdNs := "http://www.w3.org/2001/XMLSchema#"

  // RDF collection vocabulary (section 5.2 of RDF Schema 1.1)
  const RdfType := URIRef(RdfNs + "type")
  const RdfFirst := URIRef(RdfNs + "first")
  const RdfRest := URIRef(RdfNs + "rest")
  const RdfNil := URIRef(RdfNs + "nil")

  // SHACL vocabulary (W3C Shapes Constraint Language)
  const ShNodeShape := URIRef(ShNs + "NodeShape")
  const ShClosed := URIRef(ShNs + "closed")
  const ShProperty := URIRef(ShNs + "property")
  const ShPath := URIRef(ShNs + "path")
  const ShOr := URIRef(ShNs + "or")
  const ShIn := URIRef(ShNs + "in")
  const ShDatatype := URIRef(ShNs + "datatype")
  const ShClass := URIRef(ShNs + "class")
  const ShDefaultValue := URIRef(ShNs + "defaultValue")

  // XML Schema datatypes
  const XsdBooleanIri := XsdNs + "boolean"
  const XsdInteger := URIRef(XsdNs + "integer")
  const XsdString := URIRef(XsdNs + "string")
}
