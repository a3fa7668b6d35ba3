/**
 * Blank-string tests and the namespace qualification of table names
 * (buildTableNameWithNameSpace in HBaseUtil).
 */
module TableNames {
  import opened Wrappers

  /**
   * Java's Character.isWhitespace for one character, with the Unicode 6.2
   * tables of Java 8: the space, line and paragraph separators other than the
   * non-breaking ones (U+00A0, U+2007, U+202F), plus the ASCII controls
   * HT, LF, VT, FF, CR and the four information separators U+001C..U+001F.
   */
  predicate IsWhitespace(c: char) {
    || c == ' ' || c == '\t' || c == '\n' || c == '\U{B}' || c == '\U{C}' || c == '\r'
    || ('\U{1C}' <= c <= '\U{1F}')
    || c == '\U{1680}' || c == '\U{180E}'
    || ('\U{2000}' <= c <= '\U{2006}') || ('\U{2008}' <= c <= '\U{200A}')
    || c == '\U{2028}' || c == '\U{2029}' || c == '\U{205F}' || c == '\U{3000}'
  }

  /** StringUtils.isBlank: null, empty, or whitespace only. */
  predicate IsBlank(s: Option<string>) {
    s.None? || forall i :: 0 <= i < |s.value| ==> IsWhitespace(s.value[i])
  }

  /**
   * The table name the wrapper hands to the client: `namespace:tableName` when
   * the namespace is not blank, the bare table name (default namespace) otherwise.
   */
  function Qualify(tableName: string, namespace: Option<string>): (r: string)
    ensures IsBlank(namespace) ==> r == tableName
    ensures !IsBlank(namespace) ==> r == namespace.value + ":" + tableName
  {
    if !IsBlank(namespace) then namespace.value + ":" + tableName else tableName
  }

  /** The position of the first ':' in `s`, if any. */
  function ColonIndex(s: string): (r: Option<nat>)
    ensures r.Some? ==> r.value < |s| && s[r.value] == ':' && ':' !in s[..r.value]
    ensures r.None? ==> ':' !in s
  {
    if s == [] then None
    else if s[0] == ':' then Some(0)
    else match ColonIndex(s[1..])
      case None => None
      case Some(i) =>
        assert s[..i + 1] == [s[0]] + s[1..][..i];
        Some(i + 1)
  }

  /**
   * Reading a qualified name back: the part before the first ':' is the
   * namespace, the rest the table's own name; without ':' the name lies in
   * the default namespace (None).
   */
  function Split(name: string): (r: (Option<string>, string))
    ensures r.0.None? ==> r.1 == name
    ensures r.0.Some? ==> name == r.0.value + ":" + r.1 && ':' !in r.0.value
  {
    match ColonIndex(name)
    case None => (None, name)
    case Some(i) =>
      assert name == name[..i] + ":" + name[i + 1..];
      (Some(name[..i]), name[i + 1..])
  }

  /**
   * Qualification is undone by Split: a non-blank namespace and the table name
   * come back apart, a blank namespace comes back as the default one.
   */
  lemma {:induction false} QualifyThenSplit(tableName: string, namespace: Option<string>)
    requires ':' !in tableName
    requires namespace.Some? ==> ':' !in namespace.value
    ensures Split(Qualify(tableName, namespace))
            == (if IsBlank(namespace) then None else namespace, tableName)
  {
    var name := Qualify(tableName, namespace);
    if !IsBlank(namespace) {
      var ns := namespace.value;
      assert name[|ns|] == ':';
      match ColonIndex(name)
      case Some(j) =>
        assert name[..j] == ns;
        assert name[j + 1..] == tableName;
    }
  }
}
