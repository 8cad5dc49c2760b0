/**
  The report as an element tree, in place of the markup text the XML builder
  would print: an element has a name, an ordered attribute list, child
  elements and, for a failure, a character-data payload.
 */
module Xml {
  import opened Metadata

  /** An attribute value: a count, a text, or a copied run time. */
  datatype Value = IntValue(i: int) | StringValue(s: string) | FloatValue(f: real)

  datatype Attribute = Attribute(key: string, value: Value)

  datatype Element = Element(name: string, attributes: seq<Attribute>, children: seq<Element>, cdata: Option<string>)

  /** An element with no attributes and no content, such as `<properties/>`. */
  function EmptyElement(name: string): Element
  {
    Element(name, [], [], None)
  }

  /** The value of the first attribute named `key`. */
  function Lookup(attributes: seq<Attribute>, key: string): (r: Option<Value>)
  {
    if attributes == [] then None
    else if attributes[0].key == key then Some(attributes[0].value)
    else
      Lookup(attributes[1..], key)
  }

  /** No two attributes share a key, as when they come from one keyword-argument hash. */
  predicate DistinctKeys(attributes: seq<Attribute>)
  {
    forall i, j :: 0 <= i < j < |attributes| ==> attributes[i].key != attributes[j].key
  }

  /** An attribute whose key no earlier attribute carries is the one found. */
  lemma {:induction false} LookupFinds(attributes: seq<Attribute>, i: nat)
    requires i < |attributes|
    requires forall j :: 0 <= j < i ==> attributes[j].key != attributes[i].key
    ensures Lookup(attributes, attributes[i].key) == Some(attributes[i].value)
  {
    if i > 0 {
      LookupFinds(attributes[1..], i - 1);
    }
  }

  /** With distinct keys, every attribute is the one found under its key. */
  lemma EveryKeyFound(attributes: seq<Attribute>)
    requires DistinctKeys(attributes)
    ensures forall i :: 0 <= i < |attributes| ==> Lookup(attributes, attributes[i].key) == Some(attributes[i].value)
  {
    forall i | 0 <= i < |attributes|
      ensures Lookup(attributes, attributes[i].key) == Some(attributes[i].value)
    {
      LookupFinds(attributes, i);
    }
  }
}
