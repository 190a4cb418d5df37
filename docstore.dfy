/**
 * The document store as seen by the web front-end: a bucket is a finite map
 * from document key to JSON document, and a connection to it offers the one
 * batch operation the row processor uses, `get_multi(keys, quiet=True)`.
 */
module DocStore {

  datatype Option<T> = None | Some(value: T)

  /** A JSON value as stored in a document. */
  datatype Value =
    | Null
    | Bool(b: bool)
    | Number(n: int)
    | Str(s: string)
    | Array(items: seq<Value>)
    | Object(fields: map<string, Value>)

  /** A stored document: a JSON object. */
  type Document = map<string, Value>

  /** The contents of the bucket: document key to document. */
  type Bucket = map<string, Document>

  /**
   * The Python exceptions the modelled code can raise. `UnicodeEncodeError`
   * is a subclass of `ValueError`.
   */
  datatype PyError = ValueError | KeyError | TypeError | UnicodeEncodeError

  /** The document field naming a log's customer. */
  const CustomerIdField: string := "customer_id"

  /** One entry of the result of a quiet multi-get: `success` and `value`. */
  datatype Fetched = Found(doc: Document) | Failed

  /**
   * `get_multi(keys, quiet=True)`: one entry per distinct key; a key that is not
   * in the bucket reports failure instead of raising.
   */
  function MultiGet(keys: seq<string>, bucket: Bucket): (r: map<string, Fetched>)
    ensures r.Keys == set k | k in keys
    ensures forall k :: k in r ==> (r[k].Found? <==> k in bucket)
    ensures forall k :: k in r && r[k].Found? ==> k in bucket && r[k].doc == bucket[k]
  {
    map k | k in keys :: if k in bucket then Found(bucket[k]) else Failed
  }

  /** A connection to a bucket; `batches` records the key lists of the multi-gets issued on it. */
  class Connection {
    const bucket: Bucket
    ghost var batches: seq<seq<string>>

    constructor (bucket: Bucket)
      ensures this.bucket == bucket && batches == []
    {
      this.bucket := bucket;
      batches := [];
    }

    method GetMulti(keys: seq<string>) returns (docs: map<string, Fetched>)
      modifies this`batches
      ensures batches == old(batches) + [keys]
      ensures docs == MultiGet(keys, bucket)
    {
      docs := MultiGet(keys, bucket);
      batches := batches + [keys];
    }
  }
}
