/** The closed set of contactless protocols the reader accepts, and lookup by key
    (FlowbirdSupportContactlessProtocols). */
module Protocols {
  import opened Base

  datatype Protocol = ALL | A | B

  /** The stable string key each protocol carries. */
  function Key(p: Protocol): string {
    match p
    case ALL => "ALL"
    case A => "A"
    case B => "B"
  }

  /** The enum's `values()`, in declaration order. */
  function Values(): seq<Protocol> {
    [ALL, A, B]
  }

  /** The keys of the defined protocols. */
  function DefinedKeys(): set<string> {
    {"ALL", "A", "B"}
  }

  /** The loop of `findEnumByKey`: scan `values` in order and return the first
      entry whose key is `key`; running off the end throws. */
  function FindIn(values: seq<Protocol>, key: string): (r: Result<Protocol>)
    ensures r.Ok? ==> r.value in values && Key(r.value) == key
    ensures r.Throws? <==> forall p :: p in values ==> Key(p) != key
    ensures r.Throws? ==> r.error == IllegalState
  {
    if |values| == 0 then Throws(IllegalState)
    else if Key(values[0]) == key then Ok(values[0])
    else
      var rest := FindIn(values[1..], key);
      assert forall p :: p in values ==> p == values[0] || p in values[1..];
      rest
  }

  /** `findEnumByKey`: the protocol whose key is `key`, or IllegalStateException. */
  function FindEnumByKey(key: string): (r: Result<Protocol>)
    ensures r.Ok? <==> key in DefinedKeys()
    ensures r.Ok? ==> Key(r.value) == key
    ensures r.Throws? ==> r.error == IllegalState
  {
    FindIn(Values(), key)
  }

  /** The set is closed: exactly three values, each listed once. */
  lemma ValuesAreClosed(p: Protocol)
    ensures p in Values()
    ensures |Values()| == 3
    ensures forall i, j :: 0 <= i < j < |Values()| ==> Values()[i] != Values()[j]
  {
  }

  /** The keys are pairwise distinct, so a key names exactly one protocol. */
  lemma KeyInjective(p: Protocol, q: Protocol)
    ensures Key(p) == Key(q) <==> p == q
  {
  }

  /** Looking a protocol up by its own key returns that protocol. */
  lemma FindByOwnKey(p: Protocol)
    ensures FindEnumByKey(Key(p)) == Ok(p)
  {
    KeyInjective(p, FindEnumByKey(Key(p)).value);
  }

  /** Undefined keys such as "" and "C" are rejected with IllegalStateException. */
  lemma UndefinedKeysThrow()
    ensures FindEnumByKey("") == Throws(IllegalState)
    ensures FindEnumByKey("C") == Throws(IllegalState)
  {
  }
}
