/** Scope strings, pkg/scopes/scopes.go: parsing, printing, checking and validating them. */
module Scopes {

  const ALL := "*"
  const VALID_SCOPES := {"payments:read", "payments:write", "ledger:read", "ledger:write", ALL}

  // --- The string library ------------------------------------------------------------------------

  /** unicode.IsSpace */
  predicate IsSpace(c: char) {
    || c == '\t' || c == '\n' || c == '\U{000B}' || c == '\U{000C}' || c == '\r' || c == ' '
    || c == '\U{0085}' || c == '\U{00A0}' || c == '\U{1680}' || '\U{2000}' <= c <= '\U{200A}'
    || c == '\U{2028}' || c == '\U{2029}' || c == '\U{202F}' || c == '\U{205F}' || c == '\U{3000}'
  }

  /** How many characters come before the first space. */
  function TokenLength(s: string): (n: nat)
    ensures n <= |s|
    ensures forall i | 0 <= i < n :: !IsSpace(s[i])
    ensures n < |s| ==> IsSpace(s[n])
  {
    if s == "" || IsSpace(s[0]) then 0 else 1 + TokenLength(s[1..])
  }

  /** strings.Fields: the maximal runs of characters that are not spaces. */
  function Fields(s: string): seq<string>
    decreases |s|
  {
    if s == "" then []
    else if IsSpace(s[0]) then Fields(s[1..])
    else [s[..TokenLength(s)]] + Fields(s[TokenLength(s)..])
  }

  function CommasToSpaces(s: string): string {
    seq(|s|, i requires 0 <= i < |s| => if s[i] == ',' then ' ' else s[i])
  }

  function TrimSpace(s: string): string {
    if s == "" then ""
    else if IsSpace(s[0]) then TrimSpace(s[1..])
    else if IsSpace(s[|s| - 1]) then TrimSpace(s[..|s| - 1])
    else s
  }

  predicate HasPrefix(s: string, prefix: string) { prefix <= s }

  predicate HasSuffix(s: string, suffix: string) {
    |suffix| <= |s| && s[|s| - |suffix|..] == suffix
  }

  /** strings.Join with a space. */
  function JoinScopes(scopes: seq<string>): string {
    if scopes == [] then ""
    else if |scopes| == 1 then scopes[0]
    else JoinScopes(scopes[..|scopes| - 1]) + " " + scopes[|scopes| - 1]
  }

  // --- The operations ------------------------------------------------------------------------------

  /** What ParseScopes returns, without its trimming. */
  function Parsed(scopes: string): seq<string> { Fields(CommasToSpaces(scopes)) }

  /** A non-empty string without commas and spaces. */
  predicate IsToken(s: string) {
    s != "" && forall i | 0 <= i < |s| :: !IsSpace(s[i]) && s[i] != ','
  }

  method ParseScopes(scopes: string) returns (result: seq<string>)
    ensures result == Parsed(scopes)
  {
    if scopes == "" { return []; }
    var parts := Fields(CommasToSpaces(scopes));
    result := [];
    for i := 0 to |parts|
      invariant result == parts[..i]
    {
      FieldsAreTokens(scopes, i);
      TokenIsTrimmed(parts[i]);
      var p := TrimSpace(parts[i]);
      if p != "" { result := result + [p]; }
    }
  }

  /** A granted scope covers a required one: it is the wildcard, the same, or `prefix:*` for one under that prefix. */
  predicate Covers(granted: string, required: string) {
    || granted == ALL || granted == required
    || (HasSuffix(granted, ":*") && HasPrefix(required, granted[..|granted| - 1]))
  }

  predicate Grants(granted: seq<string>, required: string) {
    required == "" || exists i | 0 <= i < |granted| :: Covers(granted[i], required)
  }

  method HasScope(scopes: string, required: string) returns (ok: bool)
    ensures ok <==> Grants(Parsed(scopes), required)
  {
    if required == "" { return true; }
    var scopeList := ParseScopes(scopes);
    for i := 0 to |scopeList|
      invariant forall j | 0 <= j < i :: !Covers(scopeList[j], required)
    {
      var s := scopeList[i];
      if s == ALL || s == required { return true; }
      if HasSuffix(s, ":*") {
        var prefix := s[..|s| - 2];
        assert s == prefix + ":*";
        assert prefix + ":" == s[..|s| - 1];
        if HasPrefix(required, prefix + ":") { return true; }
      }
    }
    return false;
  }

  /** The list is made of the two others, each in its own order. */
  ghost predicate Interleaves(list: seq<string>, a: seq<string>, b: seq<string>)
    decreases |list|
  {
    if list == [] then a == [] && b == []
    else
      var init, last := list[..|list| - 1], list[|list| - 1];
      || (a != [] && a[|a| - 1] == last && Interleaves(init, a[..|a| - 1], b))
      || (b != [] && b[|b| - 1] == last && Interleaves(init, a, b[..|b| - 1]))
  }

  predicate AllValid(scopes: seq<string>) { forall i | 0 <= i < |scopes| :: scopes[i] in VALID_SCOPES }

  predicate NoneValid(scopes: seq<string>) { forall i | 0 <= i < |scopes| :: scopes[i] !in VALID_SCOPES }

  lemma {:induction false} InterleavesNext(list: seq<string>, a: seq<string>, b: seq<string>, next: string)
    requires Interleaves(list, a, b)
    ensures Interleaves(list + [next], a + [next], b) && Interleaves(list + [next], a, b + [next])
  {
    assert (list + [next])[..|list|] == list && (a + [next])[..|a|] == a && (b + [next])[..|b|] == b;
  }

  method ValidateScopes(scopes: string) returns (valid: seq<string>, invalid: seq<string>)
    ensures Interleaves(Parsed(scopes), valid, invalid)
    ensures AllValid(valid) && NoneValid(invalid)
  {
    var scopeList := ParseScopes(scopes);
    valid, invalid := [], [];
    for i := 0 to |scopeList|
      invariant Interleaves(scopeList[..i], valid, invalid)
      invariant AllValid(valid) && NoneValid(invalid)
    {
      InterleavesNext(scopeList[..i], valid, invalid, scopeList[i]);
      assert scopeList[..i + 1] == scopeList[..i] + [scopeList[i]];
      if scopeList[i] in VALID_SCOPES {
        valid := valid + [scopeList[i]];
      } else {
        invalid := invalid + [scopeList[i]];
      }
    }
    assert scopeList[..|scopeList|] == scopeList;
  }

  // --- Tokens ----------------------------------------------------------------------------------------

  predicate NoSpaces(s: string) { forall i | 0 <= i < |s| :: !IsSpace(s[i]) }

  lemma {:induction false} FieldHasNoSpaces(s: string, k: nat)
    requires k < |Fields(s)|
    ensures Fields(s)[k] != "" && NoSpaces(Fields(s)[k])
    ensures forall c | c in Fields(s)[k] :: c in s
    decreases |s|
  {
    if IsSpace(s[0]) {
      FieldHasNoSpaces(s[1..], k);
    } else if k > 0 {
      FieldHasNoSpaces(s[TokenLength(s)..], k - 1);
    }
  }

  lemma {:induction false} FieldsAreTokens(scopes: string, k: nat)
    requires k < |Parsed(scopes)|
    ensures IsToken(Parsed(scopes)[k])
  {
    FieldHasNoSpaces(CommasToSpaces(scopes), k);
    var t := Parsed(scopes)[k];
    forall i | 0 <= i < |t| ensures t[i] != ',' {
      assert t[i] in CommasToSpaces(scopes);
    }
  }

  lemma {:induction false} TokenIsTrimmed(s: string)
    requires IsToken(s)
    ensures TrimSpace(s) == s
  {
  }

  lemma {:induction false} TokenStopsAtSpace(a: string, c: char, b: string)
    requires IsSpace(c)
    ensures TokenLength(a + [c] + b) == TokenLength(a)
  {
    if a == "" {
      assert (a + [c] + b)[0] == c;
    } else if !IsSpace(a[0]) {
      TokenStopsAtSpace(a[1..], c, b);
      assert (a + [c] + b)[1..] == a[1..] + [c] + b;
    }
  }

  /** A space splits the fields. */
  lemma {:induction false} FieldsSplit(a: string, c: char, b: string)
    requires IsSpace(c)
    ensures Fields(a + [c] + b) == Fields(a) + Fields(b)
    decreases |a|
  {
    var s := a + [c] + b;
    if a == "" {
      assert s[0] == c && s[1..] == b;
    } else if IsSpace(a[0]) {
      assert s[1..] == a[1..] + [c] + b;
      FieldsSplit(a[1..], c, b);
    } else {
      var n := TokenLength(a);
      TokenStopsAtSpace(a, c, b);
      assert s[0] == a[0];
      assert Fields(s) == [s[..n]] + Fields(s[n..]);
      assert s[n..] == a[n..] + [c] + b && s[..n] == a[..n];
      FieldsSplit(a[n..], c, b);
      assert [a[..n]] + (Fields(a[n..]) + Fields(b)) == [a[..n]] + Fields(a[n..]) + Fields(b);
    }
  }

  /** Joining two scope strings with a comma or any space parses to the one list followed by the other. */
  lemma {:induction false} ParsedSplit(a: string, c: char, b: string)
    requires c == ',' || IsSpace(c)
    ensures Parsed(a + [c] + b) == Parsed(a) + Parsed(b)
  {
    var sep := if c == ',' then ' ' else c;
    assert CommasToSpaces(a + [c] + b) == CommasToSpaces(a) + [sep] + CommasToSpaces(b);
    FieldsSplit(CommasToSpaces(a), sep, CommasToSpaces(b));
  }

  lemma {:induction false} TokenParses(t: string)
    requires IsToken(t)
    ensures Parsed(t) == [t]
  {
    var s := CommasToSpaces(t);
    assert s == t;
    assert TokenLength(s) == |s|;
    assert s[|s|..] == "" && s[..|s|] == s;
    assert Fields("") == [];
  }

  predicate AllTokens(scopes: seq<string>) { forall i | 0 <= i < |scopes| :: IsToken(scopes[i]) }

  // --- Main results ------------------------------------------------------------------------------------

  lemma {:induction false} TokensComeBack(scopes: seq<string>)
    requires AllTokens(scopes)
    ensures Parsed(JoinScopes(scopes)) == scopes
  {
    if scopes == [] {
    } else if |scopes| == 1 {
      TokenParses(scopes[0]);
    } else {
      var init, last := scopes[..|scopes| - 1], scopes[|scopes| - 1];
      TokensComeBack(init);
      ParsedSplit(JoinScopes(init), ' ', last);
      TokenParses(last);
      assert JoinScopes(scopes) == JoinScopes(init) + [' '] + last;
    }
  }

  /** Parsing undoes printing exactly for lists of tokens. */
  lemma {:induction false} ParseOfJoin(scopes: seq<string>)
    ensures Parsed(JoinScopes(scopes)) == scopes <==> AllTokens(scopes)
  {
    if AllTokens(scopes) {
      TokensComeBack(scopes);
    } else {
      var i :| 0 <= i < |scopes| && !IsToken(scopes[i]);
      var p := Parsed(JoinScopes(scopes));
      if i < |p| { FieldsAreTokens(JoinScopes(scopes), i); }
    }
  }

  /** Printing what was parsed loses nothing, whatever the input was. */
  lemma {:induction false} JoinOfParse(s: string)
    ensures Parsed(JoinScopes(Parsed(s))) == Parsed(s)
  {
    forall k | 0 <= k < |Parsed(s)| ensures IsToken(Parsed(s)[k]) { FieldsAreTokens(s, k); }
    TokensComeBack(Parsed(s));
  }

  /** A grant of a combined scope string is a grant of one of its parts: more scopes never take a permission away. */
  lemma {:induction false} GrantsCombine(a: string, c: char, b: string, required: string)
    requires c == ',' || IsSpace(c)
    ensures Grants(Parsed(a + [c] + b), required) <==> Grants(Parsed(a), required) || Grants(Parsed(b), required)
  {
    ParsedSplit(a, c, b);
    var p, q := Parsed(a), Parsed(b);
    var all := p + q;
    assert forall i | 0 <= i < |p| :: all[i] == p[i];
    assert forall i | 0 <= i < |q| :: all[|p| + i] == q[i];
    assert forall i | 0 <= i < |all| :: all[i] == if i < |p| then p[i] else q[i - |p|];
  }

  /** Only the set of granted scopes matters, and a larger one grants more. */
  lemma {:induction false} GrantsGrow(granted: seq<string>, more: seq<string>, required: string)
    requires forall s | s in granted :: s in more
    requires Grants(granted, required)
    ensures Grants(more, required)
  {
    if required != "" {
      var i :| 0 <= i < |granted| && Covers(granted[i], required);
      assert granted[i] in more;
      var j :| 0 <= j < |more| && more[j] == granted[i];
    }
  }

  /** The two lists of ValidateScopes are determined by the parse: no other pair of lists meets its contract. */
  lemma {:induction false} PartitionIsUnique(
    list: seq<string>, v: seq<string>, w: seq<string>, v': seq<string>, w': seq<string>)
    requires Interleaves(list, v, w) && AllValid(v) && NoneValid(w)
    requires Interleaves(list, v', w') && AllValid(v') && NoneValid(w')
    ensures v == v' && w == w'
    decreases |list|
  {
    if list != [] {
      var init, last := list[..|list| - 1], list[|list| - 1];
      if last in VALID_SCOPES {
        LastIsIn(list, v, w, true);
        LastIsIn(list, v', w', true);
        PartitionIsUnique(init, v[..|v| - 1], w, v'[..|v'| - 1], w');
      } else {
        LastIsIn(list, v, w, false);
        LastIsIn(list, v', w', false);
        PartitionIsUnique(init, v, w[..|w| - 1], v', w'[..|w'| - 1]);
      }
    }
  }

  lemma {:induction false} LastIsIn(list: seq<string>, v: seq<string>, w: seq<string>, valid: bool)
    requires list != [] && Interleaves(list, v, w)
    requires valid ==> w == [] || w[|w| - 1] != list[|list| - 1]
    requires !valid ==> v == [] || v[|v| - 1] != list[|list| - 1]
    ensures valid ==> v != [] && v[|v| - 1] == list[|list| - 1] && Interleaves(list[..|list| - 1], v[..|v| - 1], w)
    ensures !valid ==> w != [] && w[|w| - 1] == list[|list| - 1] && Interleaves(list[..|list| - 1], v, w[..|w| - 1])
  {
  }

  // --- What a granted scope covers -------------------------------------------------------------------

  /** The required scope lies under the granted one: they are `p:*` and `p:q`. */
  ghost predicate Under(granted: string, required: string) {
    exists p: string, q: string :: granted == p + ":*" && required == p + ":" + q
  }

  lemma {:induction false} CoversExact(granted: string, required: string)
    ensures Covers(granted, required) <==> granted == "*" || granted == required || Under(granted, required)
  {
    if HasSuffix(granted, ":*") && HasPrefix(required, granted[..|granted| - 1]) {
      var p, q := granted[..|granted| - 2], required[|granted| - 1..];
      assert granted == p + ":*";
      assert granted[..|granted| - 1] == p + ":";
      assert required == p + ":" + q;
    }
    if Under(granted, required) {
      var p: string, q: string :| granted == p + ":*" && required == p + ":" + q;
      assert granted[|granted| - 2..] == ":*";
      assert granted[..|granted| - 1] == p + ":";
    }
  }

  /** What a list of granted scopes allows, in words of the scopes themselves. */
  lemma {:induction false} GrantsExact(granted: seq<string>, required: string)
    ensures Grants(granted, required) <==>
      (|| required == "" || "*" in granted || required in granted
       || exists g | g in granted :: Under(g, required))
  {
    if required != "" {
      if i :| 0 <= i < |granted| && Covers(granted[i], required) {
        CoversExact(granted[i], required);
        assert granted[i] in granted;
      }
      forall g | g in granted && (g == "*" || g == required || Under(g, required)) ensures Grants(granted, required) {
        CoversExact(g, required);
        var i :| 0 <= i < |granted| && granted[i] == g;
      }
    }
  }

  /** Scopes are printed one after the other with single spaces between. */
  lemma {:induction false} JoinAppend(a: seq<string>, b: seq<string>)
    requires a != [] && b != []
    ensures JoinScopes(a + b) == JoinScopes(a) + " " + JoinScopes(b)
    decreases |b|
  {
    var init := b[..|b| - 1];
    assert (a + b)[..|a + b| - 1] == a + init;
    if init == [] {
      assert a + init == a;
    } else {
      JoinAppend(a, init);
    }
  }
}
