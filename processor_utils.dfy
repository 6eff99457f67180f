/**
 * The name resolution of the annotation processor (processor/ProcessorUtils.java).
 *
 * Table and column names come from the annotation when it declares one and
 * from the Java element otherwise; unnamed unique constraints and indexes are
 * named after their columns. The element API the rest of the file walks is
 * replaced by plain strings: an element's simple name, a type's qualified
 * name and its package's qualified name.
 */
module ProcessorUtils {
  import opened Text
  import opened Outcomes

  /**
   * `resolveTableName`: the declared name upper-cased, or, when the
   * annotation declares none, the class's simple name exactly as written.
   */
  function ResolveTableName(simpleName: string, declared: string): (r: string)
    ensures declared == "" ==> r == simpleName
    ensures declared != "" ==> Upper(r) == r && EqualsIgnoreCase(r, declared)
  {
    if declared == "" then simpleName else Upper(declared)
  }

  /** `resolveColumnName`: the declared name, or the field's name, upper-cased either way. */
  function ResolveColumnName(fieldName: string, declared: string): (r: string)
    ensures Upper(r) == r
    ensures declared == "" ==> EqualsIgnoreCase(r, fieldName)
    ensures declared != "" ==> EqualsIgnoreCase(r, declared)
  {
    UpperIdempotent(fieldName);
    UpperIdempotent(declared);
    if declared == "" then Upper(fieldName) else Upper(declared)
  }

  /** The name `resolveName` builds from the columns: `_` and the upper-cased column, for each. */
  function UnderscoreName(columns: seq<string>): (r: string)
    ensures r == "" <==> columns == []
    decreases |columns|
  {
    if columns == [] then "" else UnderscoreName(columns[..|columns| - 1]) + "_" + Upper(columns[|columns| - 1])
  }

  /** `resolveName`: a declared name as is, or the name built from the columns. */
  function ResolvedName(name: string, columns: seq<string>): string {
    if name == "" then UnderscoreName(columns) else name
  }

  /** `Upper` distributes over concatenation. */
  lemma UpperAppend(a: string, b: string)
    ensures Upper(a + b) == Upper(a) + Upper(b)
  {
  }

  /** The built name is in upper case. */
  lemma {:induction false} UnderscoreNameUpper(columns: seq<string>)
    ensures Upper(UnderscoreName(columns)) == UnderscoreName(columns)
    decreases |columns|
  {
    if columns != [] {
      var init, last := columns[..|columns| - 1], columns[|columns| - 1];
      var u := UnderscoreName(init);
      UnderscoreNameUpper(init);
      UpperIdempotent(last);
      UpperAppend(u, "_");
      UpperAppend(u + "_", Upper(last));
    }
  }

  /** The built name has at least one `_` per column, and exactly one when no column contains one. */
  lemma {:induction false} UnderscoreNameCount(columns: seq<string>)
    ensures CountChar(UnderscoreName(columns), '_') >= |columns|
    ensures (forall i :: 0 <= i < |columns| ==> CountChar(columns[i], '_') == 0) ==>
              CountChar(UnderscoreName(columns), '_') == |columns|
    decreases |columns|
  {
    if columns != [] {
      var init, last := columns[..|columns| - 1], columns[|columns| - 1];
      var u := UnderscoreName(init);
      UnderscoreNameCount(init);
      CountConcat3(u, "_", Upper(last), '_');
      UpperKeepsUnderscores(last);
      if forall i :: 0 <= i < |columns| ==> CountChar(columns[i], '_') == 0 {
        forall i | 0 <= i < |init| ensures CountChar(init[i], '_') == 0 {
          assert init[i] == columns[i];
        }
      }
    }
  }

  /** Upper-casing neither adds nor removes an underscore. */
  lemma {:induction false} UpperKeepsUnderscores(s: string)
    ensures CountChar(Upper(s), '_') == CountChar(s, '_')
    decreases |s|
  {
    if s != [] {
      var init := s[..|s| - 1];
      UpperKeepsUnderscores(init);
      assert Upper(s) == Upper(init) + [UpperChar(s[|s| - 1])];
      assert Upper(s)[..|s| - 1] == Upper(init);
    }
  }

  /** A declared name is kept exactly; an undeclared one follows the columns. */
  lemma ResolvedNameCases(name: string, columns: seq<string>)
    ensures name != "" ==> ResolvedName(name, columns) == name
    ensures name == "" ==> (ResolvedName(name, columns) == "" <==> columns == [])
    ensures name == "" ==> Upper(ResolvedName(name, columns)) == ResolvedName(name, columns)
  {
    UnderscoreNameUpper(columns);
  }

  /** An unnamed constraint over columns "a" and "b" is named `_A_B`. */
  lemma TwoColumnNameExample()
    ensures ResolvedName("", ["a", "b"]) == "_A_B"
  {
    assert ["a", "b"][..1] == ["a"];
    assert ["a"][..0] == [];
    assert Upper("a") == "A" && Upper("b") == "B";
  }

  /** `resolveName`, appending to a fresh buffer column by column. */
  method ResolveName(name: string, columns: seq<string>) returns (r: string)
    ensures r == ResolvedName(name, columns)
  {
    if name != "" {
      return name;
    }
    var buffer := "";
    assert columns[..0] == [];
    for i := 0 to |columns|
      invariant buffer == UnderscoreName(columns[..i])
    {
      buffer := buffer + "_";
      buffer := buffer + Upper(columns[i]);
      assert columns[..i + 1][..i] == columns[..i];
    }
    assert columns[..|columns|] == columns;
    r := buffer;
  }

  /** `resolveUniqueName`: the annotation's name resolved against the columns. */
  method ResolveUniqueName(uniqueName: string, columns: seq<string>) returns (r: string)
    ensures r == ResolvedName(uniqueName, columns)
  {
    r := ResolveName(uniqueName, columns);
  }

  /** `resolveIndexName`: the annotation's name resolved against the columns. */
  method ResolveIndexName(indexName: string, columns: seq<string>) returns (r: string)
    ensures r == ResolvedName(indexName, columns)
  {
    r := ResolveName(indexName, columns);
  }

  /**
   * `rawTypeToString`: the text appended for a type, given its package's and
   * its own qualified name. The package prefix is kept and the dots after it
   * become the separator; `substring` throws when the qualified name is
   * shorter than the package name and its dot.
   */
  function RawTypeText(packageName: string, qualifiedName: string, separator: char): (r: Result<string>)
    ensures r.Failure? <==> packageName != "" && |qualifiedName| < |packageName| + 1
    ensures r.Failure? ==> r.error == OutOfBounds
    ensures packageName == "" && r.Success? ==> r.value == ReplaceChar(qualifiedName, '.', separator)
  {
    if packageName == "" then Success(ReplaceChar(qualifiedName, '.', separator))
    else if |qualifiedName| < |packageName| + 1 then Failure(OutOfBounds)
    else Success(packageName + "." + ReplaceChar(qualifiedName[|packageName| + 1..], '.', separator))
  }

  /**
   * A rendered type keeps the length of its qualified name, begins with the
   * package and a dot, and after them has the qualified name's characters
   * with every dot replaced; with a separator other than `.`, no dot
   * remains after the package.
   */
  lemma RawTypeShape(packageName: string, qualifiedName: string, separator: char)
    requires packageName != "" && |qualifiedName| >= |packageName| + 1
    ensures var r := RawTypeText(packageName, qualifiedName, separator).value;
            && |r| == |qualifiedName|
            && r[..|packageName|] == packageName && r[|packageName|] == '.'
            && (forall i :: |packageName| < i < |r| ==>
                  r[i] == if qualifiedName[i] == '.' then separator else qualifiedName[i])
            && (separator != '.' ==> forall i :: |packageName| < i < |r| ==> r[i] != '.')
  {
    var p := |packageName|;
    var tail := ReplaceChar(qualifiedName[p + 1..], '.', separator);
    var r := packageName + "." + tail;
    assert RawTypeText(packageName, qualifiedName, separator).value == r;
    assert forall i :: p < i < |r| ==> r[i] == tail[i - p - 1];
  }

  /** A nested class "a.b.C.D" of package "a.b" with separator `$`. */
  lemma NestedTypeExample()
    ensures RawTypeText("a.b", "a.b.C.D", '$') == Success("a.b.C$D")
  {
    assert |"a.b"| + 1 == 4;
    assert "a.b.C.D"[4..] == "C.D";
    assert ReplaceChar("C.D", '.', '$') == "C$D";
    assert "a.b" + "." + "C$D" == "a.b.C$D";
  }

  /** The kinds of a primitive type (javax.lang.model.type.TypeKind) that `box` handles. */
  datatype PrimitiveKind = BYTE | SHORT | INT | LONG | FLOAT | DOUBLE | BOOLEAN | CHAR | VOID

  /** `box`: the wrapper class of a primitive kind, by qualified name. */
  function Box(kind: PrimitiveKind): string {
    match kind
    case BYTE => "java.lang.Byte"
    case SHORT => "java.lang.Short"
    case INT => "java.lang.Integer"
    case LONG => "java.lang.Long"
    case FLOAT => "java.lang.Float"
    case DOUBLE => "java.lang.Double"
    case BOOLEAN => "java.lang.Boolean"
    case CHAR => "java.lang.Character"
    case VOID => "java.lang.Void"
  }

  /** Every kind boxes to a `java.lang` class of its own. */
  lemma BoxIsInjective(a: PrimitiveKind, b: PrimitiveKind)
    ensures Box(a) == Box(b) ==> a == b
    ensures IsPrefix("java.lang.", Box(a))
  {
  }
}
