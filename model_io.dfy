/** The classifier configuration record of src/model_io.py: the defaulting
    rules of `create_clf_config` and the whitespace filter it applies to a
    classifier's `repr`. */
module ModelIo {
  import opened Wrappers
  import opened PyErrors
  import opened PyStr

  /** `__filter_whitespace`: the characters of `text` that are not
      whitespace, in order. */
  function FilterWhitespace(text: string): (r: string)
    ensures NoWhitespace(r)
    ensures |r| <= |text|
  {
    if text == [] then []
    else (if IsSpace(text[0]) then [] else [text[0]]) + FilterWhitespace(text[1..])
  }

  /** Filtering a concatenation filters each part; together with the
      one-character case this says the filter keeps exactly the
      non-whitespace characters, in their original order. */
  lemma {:induction false} FilterWhitespaceAppend(a: string, b: string)
    ensures FilterWhitespace(a + b) == FilterWhitespace(a) + FilterWhitespace(b)
  {
    if a != [] {
      FilterWhitespaceAppend(a[1..], b);
      assert (a + b)[1..] == a[1..] + b;
    } else {
      assert a + b == b;
    }
  }

  lemma FilterWhitespaceChar(c: char)
    ensures FilterWhitespace([c]) == if IsSpace(c) then [] else [c]
  {
    assert [c][1..] == [];
  }

  /** Text without whitespace passes through unchanged. */
  lemma {:induction false} FilterWhitespaceFixpoint(text: string)
    requires NoWhitespace(text)
    ensures FilterWhitespace(text) == text
  {
    if text != [] {
      FilterWhitespaceFixpoint(text[1..]);
      assert text == [text[0]] + text[1..];
    }
  }

  lemma FilterWhitespaceIdempotent(text: string)
    ensures FilterWhitespace(FilterWhitespace(text)) == FilterWhitespace(text)
  {
    FilterWhitespaceFixpoint(FilterWhitespace(text));
  }

  /** What `create_clf_config` reads from the classifier: the name of its
      class, the name of the module `inspect.getmodule` finds (`None` when
      there is none) and its `repr`. */
  datatype Classifier = Classifier(className: string, moduleName: Option<string>, repr: string)

  /** Python truthiness of an optional string argument. */
  predicate Truthy(s: Option<string>) {
    s.Some? && s.value != []
  }

  const ConfigKeys: set<string> := {"description", "name", "id", "imports", "creation_str"}

  /** The configuration `create_clf_config` returns, with `uuid` standing
      for the text of `uuid.uuid4()`. When no `imports` is given and the
      classifier has no module, `inspect.getmodule(clf).__name__` raises
      AttributeError. */
  function ClfConfig(clf: Classifier, description: string, name: Option<string>, id: Option<string>,
                     creationStr: Option<string>, imports: Option<string>, uuid: string): (r: Result<map<string, string>, PyError>)
    ensures r.Success? <==> Truthy(imports) || clf.moduleName.Some?
    ensures r.Failure? ==> r.error == AttributeError
    ensures r.Success? ==> r.value.Keys == ConfigKeys
    ensures r.Success? ==> r.value["description"] == description
    ensures r.Success? ==> r.value["name"] == if Truthy(name) then name.value else clf.className
    ensures r.Success? ==> r.value["id"] == if Truthy(id) then id.value else r.value["name"] + "_" + uuid
    ensures r.Success? ==> r.value["imports"] == if Truthy(imports) then imports.value else clf.moduleName.value
    ensures r.Success? ==>
      r.value["creation_str"] == (if Truthy(creationStr) then creationStr.value
                                  else r.value["imports"] + "." + FilterWhitespace(clf.repr))
  {
    if !Truthy(imports) && clf.moduleName.None? then Failure(AttributeError)
    else
      var n := if Truthy(name) then name.value else clf.className;
      var i := if Truthy(imports) then imports.value else clf.moduleName.value;
      Success(map[
        "description" := description,
        "name" := n,
        "id" := if Truthy(id) then id.value else n + "_" + uuid,
        "imports" := i,
        "creation_str" := if Truthy(creationStr) then creationStr.value else i + "." + FilterWhitespace(clf.repr)])
  }

  /** `create_clf_config`, filling the dictionary key by key. */
  method CreateClfConfig(clf: Classifier, description: string, name: Option<string>, id: Option<string>,
                         creationStr: Option<string>, imports: Option<string>, uuid: string) returns (r: Result<map<string, string>, PyError>)
    ensures r == ClfConfig(clf, description, name, id, creationStr, imports, uuid)
  {
    var cfg: map<string, string> := map[];
    cfg := cfg["description" := description];
    cfg := cfg["name" := if Truthy(name) then name.value else clf.className];
    cfg := cfg["id" := if Truthy(id) then id.value else cfg["name"] + "_" + uuid];
    if Truthy(imports) {
      cfg := cfg["imports" := imports.value];
    } else if clf.moduleName.None? {
      return Failure(AttributeError);
    } else {
      cfg := cfg["imports" := clf.moduleName.value];
    }
    if Truthy(creationStr) {
      cfg := cfg["creation_str" := creationStr.value];
    } else {
      var imp := cfg["imports"];
      var clfRepr := FilterWhitespace(clf.repr);
      cfg := cfg["creation_str" := imp + "." + clfRepr];
    }
    r := Success(cfg);
  }

  /** Feeding a configuration's own entries back in reproduces it, whatever
      fresh identifier would otherwise be drawn. */
  lemma ClfConfigRoundTrip(clf: Classifier, description: string, name: Option<string>, id: Option<string>,
                           creationStr: Option<string>, imports: Option<string>, uuid: string, uuid2: string)
    requires ClfConfig(clf, description, name, id, creationStr, imports, uuid).Success?
    ensures var cfg := ClfConfig(clf, description, name, id, creationStr, imports, uuid).value;
      ClfConfig(clf, cfg["description"], Some(cfg["name"]), Some(cfg["id"]), Some(cfg["creation_str"]),
                Some(cfg["imports"]), uuid2) == Success(cfg)
  {
    var cfg := ClfConfig(clf, description, name, id, creationStr, imports, uuid).value;
    var again := ClfConfig(clf, cfg["description"], Some(cfg["name"]), Some(cfg["id"]), Some(cfg["creation_str"]),
                           Some(cfg["imports"]), uuid2);
    assert again.Success?;
    assert again.value.Keys == cfg.Keys;
    forall k | k in cfg
      ensures again.value[k] == cfg[k]
    {
    }
  }
}
