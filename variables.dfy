/**
 * The template variables of the editor (`App`): the names of the
 * `{{name}}` placeholders of the prompt, each with a value.
 *
 * A JavaScript object keeps its keys in insertion order, and that order
 * decides the order in which the preview substitutes them, so the variable
 * map is an association list whose keys are distinct.
 */
module Variables {
  import opened Wrappers
  import opened Strings

  datatype Binding = Binding(key: string, value: string)

  /** `Object.keys(vars)`. */
  function Keys(vars: seq<Binding>): (ks: seq<string>)
    ensures |ks| == |vars|
  {
    seq(|vars|, i requires 0 <= i < |vars| => vars[i].key)
  }

  predicate Distinct(xs: seq<string>) {
    forall i, j :: 0 <= i < j < |xs| ==> xs[i] != xs[j]
  }

  /** `vars[key]`: the value bound to `key`, if any. */
  function Lookup(vars: seq<Binding>, key: string): (r: Option<string>)
    ensures r.None? <==> forall i :: 0 <= i < |vars| ==> vars[i].key != key
    ensures r.Some? ==> Binding(key, r.value) in vars
  {
    if vars == [] then None
    else if vars[0].key == key then Some(vars[0].value)
    else Lookup(vars[1..], key)
  }

  /**
   * `obj[key] = value` on an object, and `{ ...vars, [key]: value }`: a key
   * already present keeps its place and takes the new value; a new key is
   * added at the end.
   */
  function Put(vars: seq<Binding>, key: string, value: string): seq<Binding> {
    if vars == [] then [Binding(key, value)]
    else if vars[0].key == key then [Binding(key, value)] + vars[1..]
    else [vars[0]] + Put(vars[1..], key, value)
  }

  /** Putting a key leaves the other keys in place and adds the key at the end only when it is new. */
  lemma {:induction false} PutKeys(vars: seq<Binding>, key: string, value: string)
    ensures Keys(Put(vars, key, value)) == if key in Keys(vars) then Keys(vars) else Keys(vars) + [key]
  {
    if vars != [] {
      var rest := Keys(vars[1..]);
      assert Keys(vars) == [vars[0].key] + rest;
      if vars[0].key != key {
        PutKeys(vars[1..], key, value);
        assert key in Keys(vars) <==> key in rest;
        assert Keys(Put(vars, key, value)) == [vars[0].key] + Keys(Put(vars[1..], key, value));
      } else {
        assert Keys(Put(vars, key, value)) == [key] + Keys(vars[1..]);
      }
    }
  }

  /** After putting, `key` is bound to `value` and every other binding is as it was. */
  lemma {:induction false} PutBindings(vars: seq<Binding>, key: string, value: string)
    requires Distinct(Keys(vars))
    ensures forall b :: b in Put(vars, key, value) <==> b == Binding(key, value) || (b in vars && b.key != key)
  {
    if vars != [] {
      assert Keys(vars[1..]) == Keys(vars)[1..];
      if vars[0].key != key {
        PutBindings(vars[1..], key, value);
      } else {
        forall b | b in vars[1..] ensures b.key != key {
          var i :| 0 <= i < |vars[1..]| && vars[1..][i] == b;
          assert Keys(vars)[i + 1] == b.key;
          assert Keys(vars)[0] == key;
        }
      }
    }
  }

  /** Putting a key into a map with distinct keys keeps them distinct. */
  lemma PutDistinct(vars: seq<Binding>, key: string, value: string)
    requires Distinct(Keys(vars))
    ensures Distinct(Keys(Put(vars, key, value)))
  {
    PutKeys(vars, key, value);
  }

  // ----- the placeholder pattern /{{([^}]+)}}/g -----

  /** The first `}` at or after `k`, or the length of the text when there is none. */
  function FirstClose(text: string, k: nat): (r: nat)
    requires k <= |text|
    ensures k <= r <= |text|
    ensures r < |text| ==> text[r] == '}'
    ensures forall m :: k <= m < r ==> text[m] != '}'
    decreases |text| - k
  {
    if k == |text| || text[k] == '}' then k else FirstClose(text, k + 1)
  }

  /**
   * `{{`, one or more characters other than `}` (the run ends at the first
   * `}`), then `}}`: the placeholder that starts at `i` and whose closing
   * braces start at `j`.
   */
  predicate IsPlaceholder(text: string, i: nat, j: nat) {
    i + 2 < j && j + 1 < |text|
    && text[i] == '{' && text[i + 1] == '{' && text[j] == '}' && text[j + 1] == '}'
    && forall m :: i + 2 <= m < j ==> text[m] != '}'
  }

  /** The regular expression tried at position `i`: where its closing braces are, if it matches there. */
  function MatchAt(text: string, i: nat): Option<nat> {
    if i + 1 < |text| && text[i] == '{' && text[i + 1] == '{' then
      var j := FirstClose(text, i + 2);
      if i + 2 < j && j + 1 < |text| && text[j + 1] == '}' then Some(j) else None
    else None
  }

  /** The pattern matches at `i` exactly when a placeholder starts there, and then it ends where the placeholder does. */
  lemma MatchAtIff(text: string, i: nat, j: nat)
    ensures MatchAt(text, i) == Some(j) <==> IsPlaceholder(text, i, j)
  {
    if IsPlaceholder(text, i, j) {
      var c := FirstClose(text, i + 2);
      assert c <= j;
      assert c == j;
    }
  }

  /** `[...text.matchAll(regex)].map(m => m[1])` from position `p`: leftmost matches, none overlapping. */
  function Scan(text: string, p: nat): (names: seq<string>)
    ensures forall k :: 0 <= k < |names| ==> names[k] != [] && '}' !in names[k]
    decreases |text| - p
  {
    if p >= |text| then []
    else
      match MatchAt(text, p)
      case Some(j) => [text[p + 2..j]] + Scan(text, j + 2)
      case None => Scan(text, p + 1)
  }

  /** Every captured name is the inside of a placeholder at or after `p`. */
  lemma {:induction false} ScanFindsPlaceholders(text: string, p: nat, k: nat)
    requires k < |Scan(text, p)|
    ensures exists i: nat, j: nat :: p <= i && IsPlaceholder(text, i, j) && Scan(text, p)[k] == text[i + 2..j]
    decreases |text| - p
  {
    assert p < |text|;
    match MatchAt(text, p)
    case Some(j) =>
      MatchAtIff(text, p, j);
      if k == 0 {
        assert IsPlaceholder(text, p, j) && Scan(text, p)[0] == text[p + 2..j];
      } else {
        ScanFindsPlaceholders(text, j + 2, k - 1);
        assert Scan(text, p)[k] == Scan(text, j + 2)[k - 1];
      }
    case None =>
      ScanFindsPlaceholders(text, p + 1, k);
      assert Scan(text, p) == Scan(text, p + 1);
  }

  /** Nothing is captured exactly when no placeholder starts at or after `p`. */
  lemma {:induction false} ScanEmptyIff(text: string, p: nat)
    ensures Scan(text, p) == [] <==> forall i: nat, j: nat :: p <= i ==> !IsPlaceholder(text, i, j)
    decreases |text| - p
  {
    if p < |text| {
      match MatchAt(text, p)
      case Some(j) =>
        MatchAtIff(text, p, j);
      case None =>
        ScanEmptyIff(text, p + 1);
        forall j: nat ensures !IsPlaceholder(text, p, j) {
          MatchAtIff(text, p, j);
        }
    }
  }

  /** `match[1].trim()` for every match, in order. */
  function Names(text: string): (ns: seq<string>)
    ensures |ns| == |Scan(text, 0)|
  {
    var raw := Scan(text, 0);
    seq(|raw|, k requires 0 <= k < |raw| => Trim(raw[k]))
  }

  /** The distinct elements of `xs`, each where it first occurs. */
  function Dedup(xs: seq<string>): seq<string> {
    if xs == [] then []
    else
      var d := Dedup(xs[..|xs| - 1]);
      if xs[|xs| - 1] in d then d else d + [xs[|xs| - 1]]
  }

  /** Deduplication keeps every element once and nothing else. */
  lemma {:induction false} DedupCorrect(xs: seq<string>)
    ensures Distinct(Dedup(xs))
    ensures forall x :: x in Dedup(xs) <==> x in xs
  {
    if xs != [] {
      var init := xs[..|xs| - 1];
      DedupCorrect(init);
      assert xs == init + [xs[|xs| - 1]];
    }
  }

  /** One step of the extraction loop keeps the keys equal to the distinct names seen so far. */
  lemma ExtractStepKeys(vars: seq<Binding>, names: seq<string>, i: nat, value: string)
    requires i < |names|
    requires Keys(vars) == Dedup(names[..i])
    ensures Keys(Put(vars, names[i], value)) == Dedup(names[..i + 1])
  {
    var seen := names[..i + 1];
    assert seen[..|seen| - 1] == names[..i] && seen[|seen| - 1] == names[i];
    PutKeys(vars, names[i], value);
  }

  /** One step of the extraction loop keeps every value equal to the previous one, or `''`. */
  lemma ExtractStepValues(vars: seq<Binding>, previous: seq<Binding>, name: string)
    requires Distinct(Keys(vars))
    requires forall b :: b in vars ==> b.value == Lookup(previous, b.key).GetOr("")
    ensures forall b :: b in Put(vars, name, Lookup(previous, name).GetOr("")) ==> b.value == Lookup(previous, b.key).GetOr("")
  {
    PutBindings(vars, name, Lookup(previous, name).GetOr(""));
  }

  /**
   * The extraction of `handlePromptChange`: one key per distinct name, in
   * the order the names first occur, each keeping its previous value when
   * it had one and `''` otherwise.
   */
  method ExtractVariables(text: string, previous: seq<Binding>) returns (newVariables: seq<Binding>)
    ensures Keys(newVariables) == Dedup(Names(text))
    ensures forall b :: b in newVariables ==> b.value == Lookup(previous, b.key).GetOr("")
  {
    var matches := Scan(text, 0);
    ghost var names := Names(text);
    newVariables := [];
    var i := 0;
    while i < |matches|
      invariant 0 <= i <= |matches|
      invariant Keys(newVariables) == Dedup(names[..i])
      invariant forall b :: b in newVariables ==> b.value == Lookup(previous, b.key).GetOr("")
    {
      var varName := Trim(matches[i]);
      assert varName == names[i];
      DedupCorrect(names[..i]);
      ExtractStepKeys(newVariables, names, i, Lookup(previous, varName).GetOr(""));
      ExtractStepValues(newVariables, previous, varName);
      newVariables := Put(newVariables, varName, Lookup(previous, varName).GetOr(""));
      i := i + 1;
    }
    assert names[..i] == names;
  }

  /** `handlePromptChange`: the new variables, rebuilt from the placeholders of the new text. */
  method HandlePromptChange(newText: string, variables: seq<Binding>) returns (newVariables: seq<Binding>)
    ensures Keys(newVariables) == Dedup(Names(newText))
    ensures forall b :: b in newVariables ==> b.value == Lookup(variables, b.key).GetOr("")
  {
    newVariables := ExtractVariables(newText, variables);
  }

  /**
   * The keys after a prompt edit are distinct, are exactly the names found
   * in the text (names no longer present are dropped), and a name that is
   * still present keeps its value.
   */
  lemma ExtractedVariables(text: string, previous: seq<Binding>, newVariables: seq<Binding>)
    requires Keys(newVariables) == Dedup(Names(text))
    requires forall b :: b in newVariables ==> b.value == Lookup(previous, b.key).GetOr("")
    ensures Distinct(Keys(newVariables))
    ensures forall k :: k in Keys(newVariables) <==> k in Names(text)
    ensures forall k, v :: k in Names(text) && Binding(k, v) in previous && Distinct(Keys(previous)) ==>
              Lookup(newVariables, k) == Some(v)
  {
    DedupCorrect(Names(text));
    forall k, v | k in Names(text) && Binding(k, v) in previous && Distinct(Keys(previous))
      ensures Lookup(newVariables, k) == Some(v)
    {
      LookupDistinct(previous, k, v);
      var r := Lookup(newVariables, k);
      assert Binding(k, r.value) in newVariables;
    }
  }

  /** In a map with distinct keys, the value found for a key is the one bound to it. */
  lemma {:induction false} LookupDistinct(vars: seq<Binding>, k: string, v: string)
    requires Distinct(Keys(vars)) && Binding(k, v) in vars
    ensures Lookup(vars, k) == Some(v)
  {
    var i :| 0 <= i < |vars| && vars[i] == Binding(k, v);
    if vars[0].key == k {
      assert Keys(vars)[i] == Keys(vars)[0];
    } else {
      assert Keys(vars[1..]) == Keys(vars)[1..];
      assert vars[1..][i - 1] == Binding(k, v);
      LookupDistinct(vars[1..], k, v);
    }
  }

  /** Putting a key makes it look up the new value and every other key look up what it did before. */
  lemma {:induction false} PutLookup(vars: seq<Binding>, key: string, value: string)
    ensures forall k :: Lookup(Put(vars, key, value), k) == if k == key then Some(value) else Lookup(vars, k)
  {
    if vars != [] && vars[0].key != key {
      PutLookup(vars[1..], key, value);
    }
  }

  /** `handleVariableChange(name, value)`: the name now reads the value, and every other name reads what it did. */
  function HandleVariableChange(variables: seq<Binding>, name: string, value: string): (r: seq<Binding>)
    ensures Lookup(r, name) == Some(value)
    ensures forall k :: k != name ==> Lookup(r, k) == Lookup(variables, k)
  {
    PutLookup(variables, name, value);
    Put(variables, name, value)
  }

  /** A variable change sets exactly one key and leaves every other key and its value as it was. */
  lemma VariableChangeSetsOneKey(variables: seq<Binding>, name: string, value: string)
    requires Distinct(Keys(variables))
    ensures var r := HandleVariableChange(variables, name, value);
      Distinct(Keys(r))
      && Lookup(r, name) == Some(value)
      && (forall k :: k != name ==> Lookup(r, k) == Lookup(variables, k))
      && Keys(r) == if name in Keys(variables) then Keys(variables) else Keys(variables) + [name]
  {
    PutKeys(variables, name, value);
    PutDistinct(variables, name, value);
  }

  // ----- loading a template -----

  /** A saved template: older ones are a bare string, newer ones an object. */
  datatype Template =
    | Legacy(text: string)
    | Structured(content: string, role: Option<string>, goal: Option<string>)

  /** The editor state a template load writes. */
  datatype Editor = Editor(prompt: string, role: string, goal: string, variables: seq<Binding>)

  /**
   * `handleLoadTemplate`: the prompt becomes the template's text and every
   * placeholder name in it gets `''`; an object template also sets the role
   * and goal (`''` when missing), a string template leaves them alone.
   */
  method HandleLoadTemplate(editor: Editor, template: Template) returns (r: Editor)
    ensures r.prompt == (if template.Legacy? then template.text else template.content)
    ensures r.role == (if template.Legacy? then editor.role else template.role.GetOr(""))
    ensures r.goal == (if template.Legacy? then editor.goal else template.goal.GetOr(""))
    ensures Keys(r.variables) == Dedup(Names(r.prompt))
    ensures forall b :: b in r.variables ==> b.value == ""
  {
    match template
    case Legacy(text) =>
      var vars := ExtractVariables(text, []);
      r := editor.(prompt := text, variables := vars);
    case Structured(content, role, goal) =>
      var vars := ExtractVariables(content, []);
      r := Editor(content, role.GetOr(""), goal.GetOr(""), vars);
  }
}
