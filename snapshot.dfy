/**
 * `Node_Snapshot`: the display object for one log. Its instance attributes are
 * `id`, `name`, `customer` and `doc`, plus `customer_id` once the row processor
 * assigns it. Members of the class and of `object` are found next; any other
 * attribute is answered by the `__getattr__` fallback, which reads the raw
 * document and defaults to the empty string.
 */
module Snapshot {
  import opened DocStore

  /** The attributes the constructor always sets. */
  const Reserved: set<string> := {"id", "name", "customer", "doc"}

  /**
   * The names Python 2.7 finds on the class `Node_Snapshot` or on `object`
   * before it would call `__getattr__`.
   */
  const ClassAttributes: set<string> := {
    "__class__", "__delattr__", "__dict__", "__doc__", "__format__", "__getattr__",
    "__getattribute__", "__hash__", "__init__", "__module__", "__new__", "__reduce__",
    "__reduce_ex__", "__repr__", "__setattr__", "__sizeof__", "__str__",
    "__subclasshook__", "__weakref__"
  }

  /**
   * The result of reading an attribute: a value held by the instance or given
   * by the fallback, or a member of the class (a method, descriptor or class
   * constant, whose value the model does not represent).
   */
  datatype Lookup = Attr(value: Value) | ClassMember(name: string)

  /** `d.get(key, default)` on a Python dict. */
  function DictGet(d: Document, key: string, default: Value): (v: Value)
    ensures key in d ==> v == d[key]
    ensures key !in d ==> v == default
  {
    if key in d then d[key] else default
  }

  class NodeSnapshot {
    const id: string
    const name: string
    const customer: Value
    const doc: Option<Document>
    /** The `customer_id` instance attribute: None until it is assigned. */
    var customerId: Option<Value>

    constructor (id: string, name: string, doc: Option<Document>)
      ensures this.id == id && this.name == name && this.doc == doc
      ensures customer == Null && customerId == None
    {
      this.id := id;
      this.name := name;
      this.customer := Null;
      this.doc := doc;
      this.customerId := None;
    }

    /**
     * `__getattr__`: empty string when the document is absent or empty,
     * otherwise the document's entry with the empty string as default. The
     * ensures gives the equivalent single lookup: the emptiness test only
     * matters for an absent document.
     */
    function Fallback(field: string): (v: Value)
      ensures v == DictGet(if doc.Some? then doc.value else map[], field, Str(""))
    {
      if doc.None? || doc.value == map[] then Str("") else DictGet(doc.value, field, Str(""))
    }

    /**
     * Python attribute lookup: instance attributes and class members first,
     * then the fallback.
     */
    function Attribute(field: string): (v: Lookup)
      reads this
      ensures v.ClassMember? <==> field in ClassAttributes
      ensures v.ClassMember? ==> v.name == field
      ensures field == "id" ==> v == Attr(Str(id))
      ensures field == "name" ==> v == Attr(Str(name))
      ensures field == "customer" ==> v == Attr(customer)
      ensures field == "doc" ==> v == Attr(if doc.Some? then Object(doc.value) else Null)
      ensures field == CustomerIdField && customerId.Some? ==> v == Attr(customerId.value)
      ensures field !in Reserved && field !in ClassAttributes && (field != CustomerIdField || customerId.None?) ==>
                v == Attr(Fallback(field))
    {
      if field == "id" then Attr(Str(id))
      else if field == "name" then Attr(Str(name))
      else if field == "customer" then Attr(customer)
      else if field == "doc" then Attr(if doc.Some? then Object(doc.value) else Null)
      else if field == CustomerIdField && customerId.Some? then Attr(customerId.value)
      else if field in ClassAttributes then ClassMember(field)
      else Attr(Fallback(field))
    }
  }

  /**
   * A snapshot built without a document, or with an empty one, answers every
   * attribute outside the reserved four, the class members (and an unassigned
   * `customer_id`) with the empty string; with a non-empty document it
   * answers with the document's entry, or the empty string when the entry is
   * missing.
   */
  lemma FallbackDefaults(s: NodeSnapshot, field: string)
    requires field !in Reserved && field !in ClassAttributes
    requires field != CustomerIdField || s.customerId.None?
    ensures s.doc.None? || s.doc == Some(map[]) ==> s.Attribute(field) == Attr(Str(""))
    ensures s.doc.Some? && field in s.doc.value ==> s.Attribute(field) == Attr(s.doc.value[field])
    ensures s.doc.Some? && field !in s.doc.value ==> s.Attribute(field) == Attr(Str(""))
  {
  }
}
