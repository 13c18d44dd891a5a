/** Shared vocabulary of the good-food services: Java's nullable references,
    the BusinessException error path, blank-string checks and the store's
    fresh-key generator. */
module Common {

  /** A Java reference that may be null. */
  datatype Option<+T> = None | Some(value: T)

  /** The outcome of a service call: a value, or the message of the
      BusinessException it raises. */
  datatype Result<+T> = Ok(value: T) | Err(message: string)

  /** The outcome of a validation: it passes, or it names the message of the
      first check that failed. */
  datatype Check = Pass | Fail(message: string)

  /** An instant as LocalDateTime.now() reports it; only compared for equality. */
  type Timestamp = int

  /** Java's Character.isWhitespace: the space, line and paragraph separators
      other than the non-breaking ones (U+00A0, U+2007, U+202F), plus the
      control characters U+0009..U+000D and U+001C..U+001F. */
  predicate IsWhitespace(c: char) {
    || '\U{0009}' <= c <= '\U{000D}'
    || '\U{001C}' <= c <= '\U{0020}'
    || c == '\U{1680}'
    || '\U{2000}' <= c <= '\U{2006}'
    || '\U{2008}' <= c <= '\U{200A}'
    || c == '\U{2028}' || c == '\U{2029}'
    || c == '\U{205F}' || c == '\U{3000}'
  }

  /** A non-null string that is empty or made only of whitespace. */
  predicate Blank(s: string) {
    forall i | 0 <= i < |s| :: IsWhitespace(s[i])
  }

  /** StringUtils.isNotBlank: not null, not empty, not whitespace only. */
  predicate IsNotBlank(s: Option<string>) {
    s.Some? && !Blank(s.value)
  }

  /** A string is not blank exactly when it holds a character that is not
      whitespace; null and the empty string are blank. */
  lemma NotBlankWitness(s: Option<string>)
    ensures IsNotBlank(s) <==> s.Some? && exists i | 0 <= i < |s.value| :: !IsWhitespace(s.value[i])
    ensures !IsNotBlank(None) && !IsNotBlank(Some(""))
  {
  }

  /** Collectors.toMap(key, identity) over a stream of elements: every
      element is found under its key, and every entry is an element filed
      under its own key. toMap fails on a repeated key, so the keys must be
      distinct. */
  function IndexBy<T>(elements: seq<T>, key: T -> string): (m: map<string, T>)
    requires forall i, j | 0 <= i < j < |elements| :: key(elements[i]) != key(elements[j])
    ensures forall i | 0 <= i < |elements| :: key(elements[i]) in m && m[key(elements[i])] == elements[i]
    ensures forall k | k in m :: m[k] in elements && key(m[k]) == k
  {
    if elements == [] then map[]
    else
      var last := elements[|elements| - 1];
      IndexBy(elements[..|elements| - 1], key)[key(last) := last]
  }

  /** The id the document store assigns on insert. Only its freshness matters
      to the services, so this stand-in returns a key longer than every key
      already present; it is never blank, so the new record can be looked up. */
  method NewKey(keys: set<string>) returns (id: string)
    ensures id !in keys
    ensures IsNotBlank(Some(id))
  {
    var longest: nat := 0;
    var rest := keys;
    while rest != {}
      invariant rest <= keys
      invariant forall k | k in keys - rest :: |k| <= longest
      decreases rest
    {
      var k :| k in rest;
      if |k| > longest {
        longest := |k|;
      }
      rest := rest - {k};
    }
    id := seq(longest + 1, _ => 'k');
    assert id[0] == 'k' && !IsWhitespace(id[0]);
  }
}
