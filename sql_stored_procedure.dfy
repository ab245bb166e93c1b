/** SqlStoredProcedure: a stored-procedure call built against a session. The
    procedure name and each parameter name must be safe SQL identifiers;
    the command text is "EXEC name :p1, :p2, ..." and the parameters are
    kept in a dictionary filled by Add. */
module StoredProcedures {
  import opened Collaborators

  datatype ArgumentReason =
    | BlankName(paramName: string)                // string.IsNullOrWhiteSpace on a named argument
    | UnsafeIdentifier(identifier: Option<string>) // EnsureSafeSqlIdentifier
    | DuplicateKey(key: string)                   // Dictionary.Add of a key already present

  datatype SqlError =
    | ArgumentNullException(paramName: string)
    | ArgumentException(reason: ArgumentReason)

  datatype Result<+T> = Success(value: T) | Failure(error: SqlError)

  /** char.IsWhiteSpace: the Unicode separators and the controls U+0009 to
      U+000D, U+0085. */
  predicate IsWhiteSpace(c: char) {
    || c == ' ' || ('\t' <= c <= '\r') || c == '\U{0085}' || c == '\U{00A0}' || c == '\U{1680}'
    || ('\U{2000}' <= c <= '\U{200A}') || c == '\U{2028}' || c == '\U{2029}' || c == '\U{202F}'
    || c == '\U{205F}' || c == '\U{3000}'
  }

  /** string.IsNullOrWhiteSpace; None is a null string. */
  predicate IsNullOrWhiteSpace(s: Option<string>) {
    s.None? || forall i :: 0 <= i < |s.value| ==> IsWhiteSpace(s.value[i])
  }

  /** The first class of the pattern, [_\@\#a-z] matched ignoring case. */
  predicate IsLeadingChar(c: char) {
    c == '_' || c == '@' || c == '#' || 'a' <= c <= 'z' || 'A' <= c <= 'Z'
  }

  /** \w, restricted to ASCII: letters, digits and the underscore. */
  predicate IsWordChar(c: char) {
    'a' <= c <= 'z' || 'A' <= c <= 'Z' || '0' <= c <= '9' || c == '_'
  }

  /** The repeated class of the pattern, [\.\@\$\#\w\\]. */
  predicate IsTrailingChar(c: char) {
    IsWordChar(c) || c == '.' || c == '@' || c == '$' || c == '#' || c == '\\'
  }

  /** The pattern's tail `[\.\@\$\#\w\\]* \Z` matched from position i: the
      starred class is consumed greedily, and \Z matches at the end of the
      input or just before a final newline. */
  predicate TailMatches(s: string, i: nat)
    requires i <= |s|
    decreases |s| - i
  {
    if i == |s| then true
    else if i == |s| - 1 && s[i] == '\n' then true
    else IsTrailingChar(s[i]) && TailMatches(s, i + 1)
  }

  /** SafeStoredProcParamName.IsMatch(s), for the anchored pattern
      \A [_\@\#a-z] [\.\@\$\#\w\\]* \Z. */
  predicate PatternMatches(s: string) {
    |s| > 0 && IsLeadingChar(s[0]) && TailMatches(s, 1)
  }

  /** A leading character followed by trailing characters only. */
  predicate IsPlainIdentifier(s: string) {
    |s| > 0 && IsLeadingChar(s[0]) && forall i :: 1 <= i < |s| ==> IsTrailingChar(s[i])
  }

  /** What EnsureSafeSqlIdentifier accepts: a plain identifier, or one
      followed by a single newline, which \Z lets through. */
  predicate IsSafeIdentifier(s: string) {
    || IsPlainIdentifier(s)
    || (|s| > 1 && s[|s| - 1] == '\n' && IsPlainIdentifier(s[..|s| - 1]))
  }

  /** The scan from position i succeeds exactly when everything from i on
      is a trailing character, or is that followed by one final newline. */
  lemma {:induction false} TailMatchesSpec(s: string, i: nat)
    requires i <= |s|
    ensures TailMatches(s, i) <==>
      || (forall j :: i <= j < |s| ==> IsTrailingChar(s[j]))
      || (i < |s| && s[|s| - 1] == '\n' && forall j :: i <= j < |s| - 1 ==> IsTrailingChar(s[j]))
    decreases |s| - i
  {
    if i < |s| && !(i == |s| - 1 && s[i] == '\n') {
      TailMatchesSpec(s, i + 1);
    }
  }

  /** The regular expression accepts exactly the safe identifiers. */
  lemma PatternMatchesSafe(s: string)
    ensures PatternMatches(s) <==> IsSafeIdentifier(s)
  {
    if |s| > 0 {
      TailMatchesSpec(s, 1);
      var t := s[..|s| - 1];
      if |s| > 1 && s[|s| - 1] == '\n' {
        assert forall j :: 1 <= j < |t| ==> t[j] == s[j];
      }
    }
  }

  /** EnsureSafeSqlIdentifier: None when the identifier is safe, otherwise
      the ArgumentException it throws. The whitespace test is subsumed by
      the pattern, since no safe identifier starts with whitespace. */
  function EnsureSafeSqlIdentifier(identifier: Option<string>): (r: Option<SqlError>)
    ensures r.None? <==> identifier.Some? && IsSafeIdentifier(identifier.value)
    ensures r.Some? ==> r.value == ArgumentException(UnsafeIdentifier(identifier))
  {
    if IsNullOrWhiteSpace(identifier) then
      Some(ArgumentException(UnsafeIdentifier(identifier)))
    else
      PatternMatchesSafe(identifier.value);
      if !PatternMatches(identifier.value) then Some(ArgumentException(UnsafeIdentifier(identifier)))
      else None
  }

  /** A safe identifier has no whitespace but possibly a final newline, and
      none of the characters that separate placeholders in command text. */
  lemma SafeIdentifierChars(s: string)
    requires IsSafeIdentifier(s)
    ensures !IsNullOrWhiteSpace(Some(s))
    ensures !('0' <= s[0] <= '9')
    ensures forall i :: 0 <= i < |s| ==> s[i] != ',' && s[i] != ':' && s[i] != ' ' && s[i] != '*' && s[i] != '\t'
    ensures forall i :: 0 <= i < |s| - 1 ==> s[i] != '\n'
  {
  }

  /** The safe identifiers of SqlStoredProcedureTests. */
  lemma SafeIdentifierExamples()
    ensures EnsureSafeSqlIdentifier(Some("a")).None?
    ensures EnsureSafeSqlIdentifier(Some("ab")).None?
    ensures EnsureSafeSqlIdentifier(Some("#a")).None?
    ensures EnsureSafeSqlIdentifier(Some("_a")).None?
    ensures EnsureSafeSqlIdentifier(Some("@a")).None?
    ensures EnsureSafeSqlIdentifier(Some("a@")).None?
    ensures EnsureSafeSqlIdentifier(Some("a$")).None?
    ensures EnsureSafeSqlIdentifier(Some("a#")).None?
    ensures EnsureSafeSqlIdentifier(Some("a4")).None?
  {
  }

  /** A qualified name with a domain prefix is safe. */
  lemma QualifiedIdentifierExample()
    ensures EnsureSafeSqlIdentifier(Some("DOMAIN\\username.stored_proc_name")).None?
  {
  }

  /** The unsafe identifiers of SqlStoredProcedureTests: a null or blank
      name, a leading digit or symbol, and a separator inside. */
  lemma UnsafeIdentifierExamples()
    ensures EnsureSafeSqlIdentifier(None).Some?
    ensures EnsureSafeSqlIdentifier(Some("")).Some?
    ensures EnsureSafeSqlIdentifier(Some(" \t\r\n")).Some?
    ensures EnsureSafeSqlIdentifier(Some("*")).Some?
    ensures EnsureSafeSqlIdentifier(Some("*a")).Some?
    ensures EnsureSafeSqlIdentifier(Some("4a")).Some?
  {
  }

  lemma UnsafeSeparatorExamples()
    ensures EnsureSafeSqlIdentifier(Some("a*")).Some?
    ensures EnsureSafeSqlIdentifier(Some("a b")).Some?
    ensures EnsureSafeSqlIdentifier(Some("a\tb")).Some?
    ensures EnsureSafeSqlIdentifier(Some("a\nb")).Some?
  {
  }

  /** \Z also matches before a final newline, so the pattern lets one through. */
  lemma TrailingNewlineExample()
    ensures EnsureSafeSqlIdentifier(Some("a\n")).None?
  {
  }

  /** The placeholders after the procedure name: " :p1, :p2, ..., :pn",
      with a comma only between two placeholders. */
  function Placeholders(names: seq<string>): string {
    if names == [] then ""
    else " :" + names[0] + (if |names| == 1 then "" else "," + Placeholders(names[1..]))
  }

  /** The command text StoredProcCommandText builds. */
  function CommandText(procedureName: string, names: seq<string>): string {
    "EXEC " + procedureName + Placeholders(names)
  }

  /** Appending a name appends its placeholder, after a comma unless it is
      the first. */
  lemma {:induction false} PlaceholdersAppend(names: seq<string>, name: string)
    ensures Placeholders(names + [name]) == Placeholders(names) + (if names == [] then "" else ",") + " :" + name
  {
    if names != [] {
      assert (names + [name])[1..] == names[1..] + [name];
      PlaceholdersAppend(names[1..], name);
    }
  }

  /** StoredProcCommandText: checks its arguments in the source's order (a
      blank name, then a null name list, then an unsafe name) and then
      builds the text in a StringBuilder, one placeholder per name. */
  method StoredProcCommandText(procedureName: Option<string>, parameterNames: Option<seq<string>>)
    returns (r: Result<string>)
    ensures IsNullOrWhiteSpace(procedureName) ==> r == Failure(ArgumentException(BlankName("procedureName")))
    ensures !IsNullOrWhiteSpace(procedureName) && parameterNames.None? ==>
              r == Failure(ArgumentNullException("parameterNames"))
    ensures !IsNullOrWhiteSpace(procedureName) && parameterNames.Some? && !IsSafeIdentifier(procedureName.value) ==>
              r == Failure(ArgumentException(UnsafeIdentifier(procedureName)))
    ensures r.Success? <==> procedureName.Some? && IsSafeIdentifier(procedureName.value) && parameterNames.Some?
    ensures r.Success? ==> r.value == CommandText(procedureName.value, parameterNames.value)
  {
    if IsNullOrWhiteSpace(procedureName) {
      return Failure(ArgumentException(BlankName("procedureName")));
    }
    if parameterNames.None? {
      return Failure(ArgumentNullException("parameterNames"));
    }
    var unsafe := EnsureSafeSqlIdentifier(procedureName);
    if unsafe.Some? {
      return Failure(unsafe.value);
    }
    var names := parameterNames.value;
    var sb := "EXEC " + procedureName.value;
    var isFirstParameter := true;
    var i := 0;
    while i < |names|
      invariant 0 <= i <= |names|
      invariant isFirstParameter <==> i == 0
      invariant sb == CommandText(procedureName.value, names[..i])
    {
      if !isFirstParameter {
        sb := sb + ",";
      }
      sb := sb + " :" + names[i];
      isFirstParameter := false;
      PlaceholdersAppend(names[..i], names[i]);
      assert names[..i + 1] == names[..i] + [names[i]];
      i := i + 1;
    }
    assert names[..i] == names;
    r := Success(sb);
  }

  /** The expected texts of SqlStoredProcedureTests. */
  lemma CommandTextExamples()
    ensures CommandText("StoredProc", ["a", "b", "c"]) == "EXEC StoredProc :a, :b, :c"
    ensures CommandText("StoredProc", []) == "EXEC StoredProc"
    ensures CommandText("StoredProc", ["a"]) == "EXEC StoredProc :a"
  {
  }

  /** Splits s at every occurrence of sep. */
  function Split(s: string, sep: char): (parts: seq<string>)
    ensures |parts| > 0
  {
    if s == [] then [[]]
    else
      var rest := Split(s[1..], sep);
      if s[0] == sep then [[]] + rest
      else [[s[0]] + rest[0]] + rest[1..]
  }

  /** Drops the " :" in front of every part; None if one lacks it. */
  function StripMarkers(parts: seq<string>): Option<seq<string>> {
    if parts == [] then Some([])
    else if |parts[0]| < 2 || parts[0][..2] != " :" then None
    else match StripMarkers(parts[1..])
      case None => None
      case Some(rest) => Some([parts[0][2..]] + rest)
  }

  /** Reads the parameter names back from the placeholders. */
  function ParsePlaceholders(text: string): Option<seq<string>> {
    if text == "" then Some([]) else StripMarkers(Split(text, ','))
  }

  lemma {:induction false} SplitWithoutSeparator(s: string, sep: char)
    requires forall i :: 0 <= i < |s| ==> s[i] != sep
    ensures Split(s, sep) == [s]
  {
    if s != [] {
      SplitWithoutSeparator(s[1..], sep);
      assert [s[0]] + s[1..] == s;
    }
  }

  lemma {:induction false} SplitAtFirstSeparator(s: string, sep: char, t: string)
    requires forall i :: 0 <= i < |s| ==> s[i] != sep
    ensures Split(s + [sep] + t, sep) == [s] + Split(t, sep)
  {
    if s == [] {
      assert s + [sep] + t == [sep] + t;
      assert ([sep] + t)[1..] == t;
    } else {
      assert (s + [sep] + t)[1..] == s[1..] + [sep] + t;
      SplitAtFirstSeparator(s[1..], sep, t);
      assert [s[0]] + s[1..] == s;
    }
  }

  /** Stripping a placeholder's marker gives back its name. */
  lemma StripMarkersCons(name: string, rest: seq<string>, names: seq<string>)
    requires StripMarkers(rest) == Some(names)
    ensures StripMarkers([" :" + name] + rest) == Some([name] + names)
  {
  }

  /** Names without commas come back from their placeholders unchanged. */
  lemma {:induction false} PlaceholdersRoundTrip(names: seq<string>)
    requires forall k :: 0 <= k < |names| ==> forall i :: 0 <= i < |names[k]| ==> names[k][i] != ','
    ensures ParsePlaceholders(Placeholders(names)) == Some(names)
  {
    if names != [] {
      var first := " :" + names[0];
      assert forall i :: 0 <= i < |first| ==> first[i] != ',' by {
        forall i | 0 <= i < |first| ensures first[i] != ',' {
          if i >= 2 { assert first[i] == names[0][i - 2]; }
        }
      }
      if |names| == 1 {
        SplitWithoutSeparator(first, ',');
        assert Placeholders(names) == first && first != "";
        StripMarkersCons(names[0], [], []);
        assert [first] + [] == [first] && [names[0]] + [] == names;
      } else {
        var rest := Placeholders(names[1..]);
        assert Placeholders(names) == first + [','] + rest;
        SplitAtFirstSeparator(first, ',', rest);
        PlaceholdersRoundTrip(names[1..]);
        assert rest != "";
        StripMarkersCons(names[0], Split(rest, ','), names[1..]);
        assert [names[0]] + names[1..] == names;
      }
    }
  }

  /** The round trip of the command text: for safe parameter names, what
      follows "EXEC " + name splits back into exactly the names given. */
  lemma CommandTextRoundTrip(procedureName: string, names: seq<string>)
    requires forall k :: 0 <= k < |names| ==> IsSafeIdentifier(names[k])
    ensures var text := CommandText(procedureName, names);
      var head := "EXEC " + procedureName;
      && text[..|head|] == head
      && ParsePlaceholders(text[|head|..]) == Some(names)
  {
    forall k | 0 <= k < |names|
      ensures forall i :: 0 <= i < |names[k]| ==> names[k][i] != ','
    {
      SafeIdentifierChars(names[k]);
    }
    PlaceholdersRoundTrip(names);
    var head := "EXEC " + procedureName;
    assert CommandText(procedureName, names)[|head|..] == Placeholders(names);
  }

  /** The query StoredProc prepares: its text and its parameter bindings. */
  datatype SqlQuery<V> = SqlQuery(commandText: string, bindings: seq<(string, V)>)

  class SqlStoredProcedure<V> {
    const session: Session
    const storedProcedureName: string
    /** The dictionary's keys in the order they were added, which is the
        order it enumerates them in, since nothing is ever removed. */
    var parameterNames: seq<string>
    var parameters: map<string, V>

    ghost predicate Valid()
      reads this
    {
      && IsSafeIdentifier(storedProcedureName)
      && (forall i, j :: 0 <= i < j < |parameterNames| ==> parameterNames[i] != parameterNames[j])
      && (forall n :: n in parameters <==> n in parameterNames)
      && (forall n :: n in parameterNames ==> IsSafeIdentifier(n))
    }

    /** The field initialisation, once the arguments are checked. */
    constructor(session: Session, storedProcedureName: string)
      requires IsSafeIdentifier(storedProcedureName)
      ensures Valid()
      ensures this.session == session && this.storedProcedureName == storedProcedureName
      ensures parameterNames == [] && parameters == map[]
    {
      this.session := session;
      this.storedProcedureName := storedProcedureName;
      parameterNames := [];
      parameters := map[];
    }

    /** SetParameter(name, value): an unsafe name, or one already added, is
        refused with nothing changed; otherwise name -> value is added and
        the same object is returned for chaining. */
    method SetParameter(name: Option<string>, value: V) returns (r: Result<SqlStoredProcedure<V>>)
      requires Valid()
      modifies this
      ensures Valid()
      ensures r.Success? <==> name.Some? && IsSafeIdentifier(name.value) && name.value !in old(parameters)
      ensures !(name.Some? && IsSafeIdentifier(name.value)) ==>
                r == Failure(ArgumentException(UnsafeIdentifier(name)))
      ensures name.Some? && IsSafeIdentifier(name.value) && name.value in old(parameters) ==>
                r == Failure(ArgumentException(DuplicateKey(name.value)))
      ensures r.Failure? ==> parameters == old(parameters) && parameterNames == old(parameterNames)
      ensures r.Success? ==> r.value == this
                             && parameters == old(parameters)[name.value := value]
                             && parameterNames == old(parameterNames) + [name.value]
    {
      var unsafe := EnsureSafeSqlIdentifier(name);
      if unsafe.Some? {
        return Failure(unsafe.value);
      }
      if name.value in parameters {
        return Failure(ArgumentException(DuplicateKey(name.value)));
      }
      parameters := parameters[name.value := value];
      parameterNames := parameterNames + [name.value];
      r := Success(this);
    }

    /** StoredProc: the command text for the procedure and the parameter
        names, and one binding per parameter, in the same order. */
    method StoredProc() returns (q: SqlQuery<V>)
      requires Valid()
      ensures q.commandText == CommandText(storedProcedureName, parameterNames)
      ensures |q.bindings| == |parameterNames|
      ensures forall i :: 0 <= i < |q.bindings| ==>
                q.bindings[i].0 == parameterNames[i] && parameterNames[i] in parameters
                && q.bindings[i].1 == parameters[parameterNames[i]]
    {
      SafeIdentifierChars(storedProcedureName);
      var text := StoredProcCommandText(Some(storedProcedureName), Some(parameterNames));
      var bindings: seq<(string, V)> := [];
      var i := 0;
      while i < |parameterNames|
        invariant 0 <= i <= |parameterNames|
        invariant |bindings| == i
        invariant forall k :: 0 <= k < i ==>
                    bindings[k].0 == parameterNames[k] && parameterNames[k] in parameters
                    && bindings[k].1 == parameters[parameterNames[k]]
      {
        var n := parameterNames[i];
        bindings := bindings + [(n, parameters[n])];
        i := i + 1;
      }
      q := SqlQuery(text.value, bindings);
    }
  }

  /** new SqlStoredProcedure(session, name), and the extension method
      session.SqlStoredProcedure(name) that calls it: a null session is
      refused first, then an unsafe name; otherwise the new object has no
      parameters. */
  method Create<V>(session: Session?, storedProcedureName: Option<string>)
    returns (r: Result<SqlStoredProcedure<V>>)
    ensures session == null ==> r == Failure(ArgumentNullException("session"))
    ensures session != null && !(storedProcedureName.Some? && IsSafeIdentifier(storedProcedureName.value)) ==>
              r == Failure(ArgumentException(UnsafeIdentifier(storedProcedureName)))
    ensures r.Success? <==> session != null && storedProcedureName.Some? && IsSafeIdentifier(storedProcedureName.value)
    ensures r.Success? ==> && fresh(r.value) && r.value.Valid()
                           && r.value.session == session
                           && r.value.storedProcedureName == storedProcedureName.value
                           && r.value.parameterNames == [] && r.value.parameters == map[]
  {
    if session == null {
      return Failure(ArgumentNullException("session"));
    }
    var unsafe := EnsureSafeSqlIdentifier(storedProcedureName);
    if unsafe.Some? {
      return Failure(unsafe.value);
    }
    var p := new SqlStoredProcedure(session, storedProcedureName.value);
    r := Success(p);
  }
}
