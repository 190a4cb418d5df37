/**
 * `normalize_log_fields`: turns a submitted form into a log document. Each
 * form key is split at its first underscore; keys whose prefix is `log` give
 * one document field each, named by the rest of the key. The document is then
 * checked, in order, for a name, a customer id and that customer's existence.
 */
module LogForm {
  import opened DocStore

  const LogPrefix: string := "log"
  const Separator: char := '_'
  const BadRequest: int := 400

  const NoName: string := "Must have name"
  const NoCustomerId: string := "Must have customer ID"
  const NameField: string := "name"

  /** The submitted form: `form.items()`, one value per key. */
  type Form = map<string, string>

  /** The log document built from a form: field name to submitted text. */
  type LogDoc = map<string, string>

  /** `(doc, None)`, `(None, (message, status))`, or an exception. */
  datatype Outcome =
    | Accepted(doc: LogDoc)
    | Rejected(message: string, status: int)
    | Raised(error: PyError)

  /** The message for a customer id that names no document. */
  function CustomerNotFound(id: string): string
  {
    "Customer ID " + id + " not found"
  }

  /**
   * `name_base, fieldname = k.split('_', 1)`: None when the key holds no
   * underscore (the two-name unpacking then fails), otherwise the part before
   * the first underscore and the part after it.
   */
  function SplitFirst(k: string): (r: Option<(string, string)>)
    ensures r.None? <==> Separator !in k
    ensures r.Some? ==> k == r.value.0 + [Separator] + r.value.1 && Separator !in r.value.0
  {
    if k == [] then None
    else if k[0] == Separator then Some(([], k[1..]))
    else
      match SplitFirst(k[1..])
      case None => None
      case Some(parts) => Some(([k[0]] + parts.0, parts.1))
  }

  /** Splitting undoes joining with the separator when the first part holds none. */
  lemma {:induction false} SplitJoin(a: string, b: string)
    requires Separator !in a
    ensures SplitFirst(a + [Separator] + b) == Some((a, b))
  {
    var k := a + [Separator] + b;
    if a != [] {
      assert k[0] == a[0] != Separator;
      assert k[1..] == a[1..] + [Separator] + b;
      SplitJoin(a[1..], b);
      assert a == [a[0]] + a[1..];
    } else {
      assert (a + [Separator] + b)[1..] == b;
    }
  }

  /** The form key that carries document field `field`. */
  function LogKey(field: string): string
  {
    LogPrefix + [Separator] + field
  }

  lemma LogKeySplits(field: string)
    ensures SplitFirst(LogKey(field)) == Some((LogPrefix, field))
  {
    SplitJoin(LogPrefix, field);
  }

  /** A key is kept when it splits and its prefix is exactly `log`. */
  predicate IsLogKey(k: string)
  {
    SplitFirst(k).Some? && SplitFirst(k).value.0 == LogPrefix
  }

  /** The document fields named by the form's `log_` keys. */
  function FieldNames(form: Form): set<string>
  {
    set k | k in form && IsLogKey(k) :: SplitFirst(k).value.1
  }

  /**
   * The document the loop builds: exactly one field per `log_` key, holding
   * that key's value unchanged.
   */
  function Collect(form: Form): (doc: LogDoc)
    ensures forall f :: f in doc <==> LogKey(f) in form
    ensures forall f :: f in doc ==> doc[f] == form[LogKey(f)]
  {
    forall f ensures f in FieldNames(form) <==> LogKey(f) in form {
      LogKeySplits(f);
      if f in FieldNames(form) {
        var k :| k in form && IsLogKey(k) && SplitFirst(k).value.1 == f;
        assert k == LogKey(f);
      }
    }
    map f | f in FieldNames(form) :: form[LogKey(f)]
  }

  /** True when the field is present and not empty (`x in doc and doc[x]`). */
  predicate HasValue(doc: LogDoc, field: string)
  {
    field in doc && doc[field] != ""
  }

  /** Every character is below code point 128, so Python 2 can encode it as ASCII. */
  predicate IsAscii(s: string)
  {
    forall i :: 0 <= i < |s| ==> (s[i] as int) < 128
  }

  /** Name and customer id are present, but no document has that id. */
  predicate CustomerMissing(doc: LogDoc, bucket: Bucket)
  {
    HasValue(doc, NameField) && HasValue(doc, CustomerIdField) && doc[CustomerIdField] !in bucket
  }

  /**
   * The not-found message cannot be built: Python 2 `str.format` encodes the
   * `unicode` customer id as ASCII, which fails on any other character.
   */
  predicate MessageUnencodable(doc: LogDoc, bucket: Bucket)
  {
    CustomerMissing(doc, bucket) && !IsAscii(doc[CustomerIdField])
  }

  /**
   * The three checks, in their fixed order, each failing with status 400;
   * formatting the not-found message raises a UnicodeEncodeError on a
   * customer id outside ASCII.
   */
  function Validate(doc: LogDoc, bucket: Bucket): (r: Outcome)
    ensures r.Raised? ==> r.error == UnicodeEncodeError
    ensures r.Raised? <==> MessageUnencodable(doc, bucket)
    ensures r.Rejected? ==> r.status == BadRequest
    ensures r == Rejected(NoName, BadRequest) <==> !HasValue(doc, NameField)
    ensures r == Rejected(NoCustomerId, BadRequest) <==> HasValue(doc, NameField) && !HasValue(doc, CustomerIdField)
    ensures r.Rejected? && r.message != NoName && r.message != NoCustomerId ==>
              CustomerMissing(doc, bucket) && IsAscii(doc[CustomerIdField]) &&
              r.message == CustomerNotFound(doc[CustomerIdField])
    ensures CustomerMissing(doc, bucket) && IsAscii(doc[CustomerIdField]) ==>
              r == Rejected(CustomerNotFound(doc[CustomerIdField]), BadRequest)
    ensures r.Accepted? <==> HasValue(doc, NameField) && HasValue(doc, CustomerIdField) && doc[CustomerIdField] in bucket
    ensures r.Accepted? ==> r.doc == doc
  {
    if !HasValue(doc, NameField) then Rejected(NoName, BadRequest)
    else if !HasValue(doc, CustomerIdField) then Rejected(NoCustomerId, BadRequest)
    else if doc[CustomerIdField] !in bucket then
      if IsAscii(doc[CustomerIdField]) then Rejected(CustomerNotFound(doc[CustomerIdField]), BadRequest)
      else Raised(UnicodeEncodeError)
    else Accepted(doc)
  }

  /**
   * What `normalize_log_fields` does with a form, against the bucket that
   * `db.get` reads: a key without an underscore raises a ValueError whatever
   * the other keys hold; otherwise the collected document is validated.
   */
  function Normalized(form: Form, bucket: Bucket): (r: Outcome)
    ensures r == Raised(ValueError) <==> exists k :: k in form && Separator !in k
    ensures r == Raised(UnicodeEncodeError) <==>
              (forall k :: k in form ==> Separator in k) && MessageUnencodable(Collect(form), bucket)
    ensures r.Raised? ==> r.error == ValueError || r.error == UnicodeEncodeError
    ensures r.Accepted? ==> HasValue(r.doc, NameField) && HasValue(r.doc, CustomerIdField)
    ensures r.Accepted? ==> r.doc[CustomerIdField] in bucket
    ensures r.Accepted? ==> forall f :: f in r.doc <==> LogKey(f) in form
    ensures r.Accepted? ==> forall f :: f in r.doc ==> r.doc[f] == form[LogKey(f)]
  {
    if exists k :: k in form && Separator !in k then Raised(ValueError)
    else Validate(Collect(form), bucket)
  }

  /**
   * The loop of `normalize_log_fields`, over the form's items in whatever
   * order the form yields them, followed by the checks.
   */
  method NormalizeLogFields(form: Form, bucket: Bucket) returns (r: Outcome)
    ensures r == Normalized(form, bucket)
  {
    var doc: LogDoc := map[];
    var remaining := form.Keys;
    while remaining != {}
      invariant remaining <= form.Keys
      invariant forall k :: k in form && k !in remaining ==> Separator in k
      invariant forall f :: f in doc <==> LogKey(f) in form && LogKey(f) !in remaining
      invariant forall f :: f in doc ==> doc[f] == form[LogKey(f)]
      decreases |remaining|
    {
      var k :| k in remaining;
      remaining := remaining - {k};
      var parts := SplitFirst(k);
      if parts.None? {
        return Raised(ValueError);
      }
      var (base, field) := parts.value;
      forall f ensures LogKey(f) == k <==> base == LogPrefix && f == field {
        LogKeySplits(f);
      }
      if base != LogPrefix {
        continue;
      }
      doc := doc[field := form[k]];
    }
    assert doc == Collect(form);
    r := Validate(doc, bucket);
  }

  lemma LogKeyInjective(a: string, b: string)
    ensures LogKey(a) == LogKey(b) <==> a == b
  {
    LogKeySplits(a);
    LogKeySplits(b);
  }

  /** Adding a `log_` key adds exactly its field to the collected document. */
  lemma CollectAddLogField(form: Form, f: string, v: string)
    ensures Collect(form[LogKey(f) := v]) == Collect(form)[f := v]
  {
    var after, updated := Collect(form[LogKey(f) := v]), Collect(form)[f := v];
    forall g ensures (g in after <==> g in updated) && (g in after ==> after[g] == updated[g]) {
      LogKeyInjective(g, f);
    }
    assert after.Keys == updated.Keys;
  }

  /** Adding a key with another prefix leaves the collected document as it was. */
  lemma CollectAddOther(form: Form, k: string, v: string)
    requires !IsLogKey(k)
    ensures Collect(form[k := v]) == Collect(form)
  {
    var after, before := Collect(form[k := v]), Collect(form);
    forall g ensures (g in after <==> g in before) && (g in after ==> after[g] == before[g]) {
      LogKeySplits(g);
    }
    assert after.Keys == before.Keys;
  }

  /** `other_field` splits into `other` and `field`, so it is not a `log_` key. */
  lemma OtherFieldIsNotLogKey()
    ensures !IsLogKey("other_field")
  {
    SplitJoin("other", "field");
    assert "other" + [Separator] + "field" == "other_field";
  }

  /** The example form, built one key at a time. */
  lemma ExampleCollectSteps(m1: Form, m2: Form, m3: Form)
    requires m1 == map[LogKey("name") := "x"]
    requires m2 == m1[LogKey("customer_id") := "c1"]
    requires m3 == m2["other_field" := "y"]
    ensures Collect(m3) == map["name" := "x"]["customer_id" := "c1"]
  {
    var m0: Form := map[];
    assert m1 == m0[LogKey("name") := "x"];
    assert Collect(m0) == map[];
    CollectAddLogField(m0, "name", "x");
    CollectAddLogField(m1, "customer_id", "c1");
    OtherFieldIsNotLogKey();
    CollectAddOther(m2, "other_field", "y");
  }

  /** The document collected from the example form (`log_name`, `log_customer_id`, `other_field`). */
  lemma ExampleCollect(form: Form)
    requires form == map[LogKey("name") := "x", LogKey("customer_id") := "c1", "other_field" := "y"]
    ensures Collect(form) == map["name" := "x", "customer_id" := "c1"]
  {
    var m1: Form := map[LogKey("name") := "x"];
    var m2 := m1[LogKey("customer_id") := "c1"];
    ExampleCollectSteps(m1, m2, m2["other_field" := "y"]);
  }

  /**
   * The example form (`log_name`, `log_customer_id` and
   * `other_field`): `other_field` has prefix `other` and is dropped; the
   * other two keys become `name` and `customer_id`.
   */
  lemma ExampleForm(form: Form, bucket: Bucket)
    requires form == map[LogKey("name") := "x", LogKey("customer_id") := "c1", "other_field" := "y"]
    requires bucket == map["c1" := map[]]
    ensures Normalized(form, bucket) == Accepted(map["name" := "x", "customer_id" := "c1"])
  {
    ExampleCollect(form);
    ExampleSplits(form);
    var doc := Collect(form);
    assert HasValue(doc, NameField) && HasValue(doc, CustomerIdField) && doc[CustomerIdField] in bucket;
  }

  lemma ExampleSplits(form: Form)
    requires form == map[LogKey("name") := "x", LogKey("customer_id") := "c1", "other_field" := "y"]
    ensures forall k :: k in form ==> Separator in k
  {
    assert LogKey("name")[3] == LogKey("customer_id")[3] == "other_field"[5] == Separator;
  }

  /**
   * A name and an absent customer id outside ASCII: formatting the not-found
   * message raises instead of returning the 400.
   */
  lemma AbsentNonAsciiCustomerRaises(name: string, id: string, bucket: Bucket)
    requires name != "" && id != "" && id !in bucket && !IsAscii(id)
    ensures Normalized(map[LogKey(NameField) := name, LogKey(CustomerIdField) := id], bucket) == Raised(UnicodeEncodeError)
  {
    var m1: Form := map[LogKey(NameField) := name];
    var form := m1[LogKey(CustomerIdField) := id];
    var doc := CollectTwo(m1, form, name, id);
    assert LogKey(NameField)[3] == LogKey(CustomerIdField)[3] == Separator;
    assert MessageUnencodable(doc, bucket);
  }

  /** A form with just a name key and a customer id key collects to those two fields. */
  lemma CollectTwo(m1: Form, form: Form, name: string, id: string) returns (doc: LogDoc)
    requires m1 == map[LogKey(NameField) := name]
    requires form == m1[LogKey(CustomerIdField) := id]
    ensures doc == Collect(form)
    ensures NameField in doc && doc[NameField] == name
    ensures CustomerIdField in doc && doc[CustomerIdField] == id
  {
    var m0: Form := map[];
    assert m1 == m0[LogKey(NameField) := name];
    assert Collect(m0) == map[];
    CollectAddLogField(m0, NameField, name);
    CollectAddLogField(m1, CustomerIdField, id);
    doc := Collect(form);
  }

  /** The customer id `caf\u00e9`, absent from the bucket, raises a UnicodeEncodeError. */
  lemma CafeCustomerRaises(bucket: Bucket)
    requires "caf\U{e9}" !in bucket
    ensures Normalized(map[LogKey(NameField) := "x", LogKey(CustomerIdField) := "caf\U{e9}"], bucket) == Raised(UnicodeEncodeError)
  {
    assert ("caf\U{e9}")[3] as int == 0xe9;
    AbsentNonAsciiCustomerRaises("x", "caf\U{e9}", bucket);
  }
}
