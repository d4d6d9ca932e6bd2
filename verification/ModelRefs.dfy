/** Model references `provider:model[@base-url][?options]`: the parser, the
    printer and the profiles built from them (runtime/model_refs.py,
    runtime/session.py). */
module ModelRefs {
  import opened Text
  import opened Wrappers

  /** Percent- and plus-decoding of one query part. It is library code; the model
      only needs that it leaves text without `%` and `+` alone. */
  type Decoder = string -> string

  ghost predicate KeepsPlainText(decode: Decoder) {
    forall s: string | '%' !in s && '+' !in s :: decode(s) == s
  }

  const KNOWN_PROVIDERS: set<string> :=
    {"codex", "antigravity", "composer", "openai", "anthropic", "gemini",
     "azure-foundry", "ollama", "openai-compatible"}

  const EFFORTS: set<string> := {"minimal", "low", "medium", "high"}

  datatype ModelRef = ModelRef(provider: string, model: string, baseUrl: Option<string>,
                               options: map<string, string>)

  datatype RefError =
    | EmptyRef | BadSyntax | UnknownProvider | MissingBaseUrl | BadBaseRef | RelativeBaseUrl | BadEffort

  // ---- Query strings ---------------------------------------------------

  /** `dict(parse_qsl(query, keep_blank_values=False))` over the `&` fields. */
  function ParseFields(fields: seq<string>, decode: Decoder): map<string, string> {
    if fields == [] then map[]
    else
      var rest := ParseFields(fields[1..], decode);
      var (name, found, value) := Partition(fields[0], '=');
      if found && value != [] && decode(name) !in rest then rest[decode(name) := decode(value)]
      else rest
  }

  function ParseQuery(query: string, decode: Decoder): map<string, string> {
    if query == [] then map[] else ParseFields(Split(query, '&'), decode)
  }

  function Fields(keys: seq<string>, options: map<string, string>): seq<string>
    requires forall k | k in keys :: k in options
  {
    if keys == [] then [] else [keys[0] + ['='] + options[keys[0]]] + Fields(keys[1..], options)
  }

  // ---- parse_model_ref and normalized ----------------------------------

  predicate AbsoluteUrl(url: string) {
    "http://" <= url || "https://" <= url
  }

  const OLLAMA_URL: string := "http://localhost:11434"

  function SplitModelBaseUrl(provider: string, part: string): Result<(string, Option<string>), RefError> {
    var (model, found, url) := Partition(part, '@');
    if provider == "ollama" then
      if !found then Ok((model, Some(OLLAMA_URL)))
      else if model == [] || url == [] then Err(BadBaseRef)
      else if !AbsoluteUrl(url) then Err(RelativeBaseUrl)
      else Ok((model, Some(url)))
    else if provider in {"openai-compatible", "azure-foundry"} then
      if !found then
        if provider == "openai-compatible" then Err(MissingBaseUrl) else Ok((part, None))
      else if model == [] || url == [] then Err(BadBaseRef)
      else if !AbsoluteUrl(url) then Err(RelativeBaseUrl)
      else Ok((model, Some(url)))
    else Ok((part, None))
  }

  function ParseModelRef(value: string, decode: Decoder): Result<ModelRef, RefError> {
    var text := Strip(value);
    if text == [] then Err(EmptyRef)
    else
      var (head, _, query) := Partition(text, '?');
      var (provider, sep, part) := Partition(head, ':');
      if !sep || provider == [] || part == [] then Err(BadSyntax)
      else if provider !in KNOWN_PROVIDERS then Err(UnknownProvider)
      else
        var (model, baseUrl) :- SplitModelBaseUrl(provider, part);
        var options := ParseQuery(query, decode);
        if "reasoning" in options && options["reasoning"] !in EFFORTS then Err(BadEffort)
        else Ok(ModelRef(provider, model, baseUrl, options))
  }

  /** The keys of the options in `sorted` order, from any listing of them. */
  ghost predicate ListsKeys(keys: seq<string>, options: map<string, string>) {
    Distinct(keys) && forall k :: k in keys <==> k in options
  }

  function Printed(r: ModelRef, query: string): string {
    r.provider + [':'] + r.model
    + (match r.baseUrl case Some(url) => (if url != [] then ['@'] + url else []) case None => [])
    + (if r.options != map[] then ['?'] + query else [])
  }

  /** `ModelRef.normalized`. `keys` is the dict's own key order. */
  function Normalized(r: ModelRef, keys: seq<string>): string
    requires ListsKeys(keys, r.options)
  {
    SortedMembers(keys);
    Printed(r, Join(Fields(Sorted(keys), r.options), '&'))
  }

  // ---- Round trip ------------------------------------------------------

  /** The option dicts a query can carry verbatim. */
  ghost predicate Printable(options: map<string, string>) {
    forall k | k in options ::
      && '=' !in k && '&' !in k && '%' !in k && '+' !in k
      && options[k] != [] && '&' !in options[k] && '%' !in options[k] && '+' !in options[k]
  }

  lemma {:induction false} ParsedFieldsPrintable(fields: seq<string>, decode: Decoder)
    requires KeepsPlainText(decode)
    requires forall f | f in fields :: '&' !in f && '%' !in f && '+' !in f
    ensures Printable(ParseFields(fields, decode))
  {
    if fields != [] {
      ParsedFieldsPrintable(fields[1..], decode);
      assert fields[0] in fields;
      PartitionShape(fields[0], '=');
    }
  }

  lemma {:induction false} FieldsParseBack(keys: seq<string>, options: map<string, string>, decode: Decoder)
    requires KeepsPlainText(decode) && Printable(options)
    requires Distinct(keys) && forall k | k in keys :: k in options
    ensures ParseFields(Fields(keys, options), decode) == map k | k in keys :: options[k]
  {
    if keys != [] {
      FieldsParseBack(keys[1..], options, decode);
      var k := keys[0];
      PartitionFound(k, '=', options[k]);
      assert k !in keys[1..];
      assert Fields(keys, options)[1..] == Fields(keys[1..], options);
      assert forall x :: x in keys <==> x == k || x in keys[1..];
    }
  }

  lemma {:induction false} FieldsAvoid(keys: seq<string>, options: map<string, string>, c: char)
    requires forall k | k in keys :: k in options && c !in k && c !in options[k]
    requires c != '='
    ensures |Fields(keys, options)| == |keys|
    ensures forall f | f in Fields(keys, options) :: c !in f
  {
    if keys != [] {
      FieldsAvoid(keys[1..], options, c);
    }
  }

  lemma QueryParsesBack(keys: seq<string>, options: map<string, string>, decode: Decoder)
    requires KeepsPlainText(decode) && Printable(options) && options != map[]
    requires ListsKeys(keys, options)
    ensures ParseQuery(Join(Fields(keys, options), '&'), decode) == options
  {
    var k0 :| k0 in options;
    assert keys != [];
    FieldsAvoid(keys, options, '&');
    var fields := Fields(keys, options);
    SplitJoin(fields, '&');
    assert |fields[0]| >= 2;
    assert Join(fields, '&') != [];
    FieldsParseBack(keys, options, decode);
  }

  lemma {:induction false} ProvidersAvoid(provider: string)
    requires provider in KNOWN_PROVIDERS
    ensures ':' !in provider && '?' !in provider && provider != [] && !IsSpace(provider[0])
  {
  }

  /** What the model part of a reference of that provider can be. */
  ghost predicate PartOk(provider: string, model: string, baseUrl: Option<string>) {
    match baseUrl
    case None =>
      && provider != "ollama" && provider != "openai-compatible" && model != []
      && (provider == "azure-foundry" ==> '@' !in model)
    case Some(url) =>
      && (provider == "ollama" || provider == "openai-compatible" || provider == "azure-foundry")
      && '?' !in url && url != [] && AbsoluteUrl(url) && model != [] && '@' !in model
  }

  /** A parsed reference: what the parser can return. */
  ghost predicate Parsed(r: ModelRef) {
    && r.provider in KNOWN_PROVIDERS
    && '?' !in r.model
    && PartOk(r.provider, r.model, r.baseUrl)
    && Printable(r.options)
    && ("reasoning" in r.options ==> r.options["reasoning"] in EFFORTS)
  }

  lemma SplitModelReturnsPart(provider: string, part: string)
    requires part != [] && '?' !in part && SplitModelBaseUrl(provider, part).Ok?
    ensures var (model, baseUrl) := SplitModelBaseUrl(provider, part).value;
            '?' !in model && PartOk(provider, model, baseUrl)
  {
    PartitionShape(part, '@');
    DefaultUrlShape();
  }

  lemma DefaultUrlShape()
    ensures AbsoluteUrl(OLLAMA_URL) && '?' !in OLLAMA_URL && OLLAMA_URL != [] && SpaceFree(OLLAMA_URL)
  {
    assert OLLAMA_URL[..7] == "http://";
  }

  lemma QueryReturnsPrintable(query: string, decode: Decoder)
    requires KeepsPlainText(decode) && '%' !in query && '+' !in query
    ensures Printable(ParseQuery(query, decode))
  {
    SplitPartsAvoid(query, '&');
    if query != [] {
      ParsedFieldsPrintable(Split(query, '&'), decode);
    }
  }

  lemma ParserReturnsParsed(value: string, decode: Decoder)
    requires KeepsPlainText(decode) && '%' !in value && '+' !in value
    requires ParseModelRef(value, decode).Ok?
    ensures Parsed(ParseModelRef(value, decode).value)
  {
    var text := Strip(value);
    StripMembers(value);
    PartitionShape(text, '?');
    var (head, found, query) := Partition(text, '?');
    PartitionShape(head, ':');
    var (provider, sep, part) := Partition(head, ':');
    SplitModelReturnsPart(provider, part);
    QueryReturnsPrintable(query, decode);
  }

  function PrintedPart(r: ModelRef): string {
    r.model + (match r.baseUrl case Some(url) => (if url != [] then ['@'] + url else []) case None => [])
  }

  /** The part after the provider parses back. */
  lemma ModelPartParsesBack(r: ModelRef)
    requires Parsed(r)
    ensures PrintedPart(r) != [] && '?' !in PrintedPart(r)
    ensures SplitModelBaseUrl(r.provider, PrintedPart(r)) == Ok((r.model, r.baseUrl))
  {
    match r.baseUrl
    case None =>
      assert PrintedPart(r) == r.model;
      if r.provider == "azure-foundry" {
        PartitionAbsent(r.model, '@');
      }
    case Some(url) =>
      PartitionFound(r.model, '@', url);
      assert PrintedPart(r) == r.model + ['@'] + url;
  }

  lemma PrintedShape(r: ModelRef, query: string)
    ensures Printed(r, query) == r.provider + [':'] + PrintedPart(r)
                                 + (if r.options != map[] then ['?'] + query else [])
  {
  }

  lemma HeadAndQuery(r: ModelRef, query: string)
    requires Parsed(r)
    ensures var head := r.provider + [':'] + PrintedPart(r);
            && Partition(Printed(r, query), '?').0 == head
            && Partition(Printed(r, query), '?').2 == (if r.options != map[] then query else [])
  {
    var head := r.provider + [':'] + PrintedPart(r);
    ModelPartParsesBack(r);
    ProvidersAvoid(r.provider);
    PrintedShape(r, query);
    assert '?' !in head;
    if r.options != map[] {
      assert head + (['?'] + query) == head + ['?'] + query;
      PartitionFound(head, '?', query);
    } else {
      assert head + [] == head;
      PartitionAbsent(head, '?');
    }
  }

  lemma PrintedParsesBack(r: ModelRef, query: string, decode: Decoder)
    requires Parsed(r) && ParseQuery(if r.options != map[] then query else [], decode) == r.options
    requires Strip(Printed(r, query)) == Printed(r, query)
    ensures ParseModelRef(Printed(r, query), decode) == Ok(r)
  {
    HeadAndQuery(r, query);
    ModelPartParsesBack(r);
    ProvidersAvoid(r.provider);
    PartitionFound(r.provider, ':', PrintedPart(r));
    assert |Printed(r, query)| > 0;
  }

  lemma NormalizedEnds(r: ModelRef, keys: seq<string>)
    requires Parsed(r) && ListsKeys(keys, r.options)
    ensures var n := Normalized(r, keys);
            n != [] && !IsSpace(n[0]) && (!IsSpace(n[|n| - 1]) ==> Strip(n) == n)
  {
    SortedMembers(keys);
    ProvidersAvoid(r.provider);
    var n := Normalized(r, keys);
    assert n[0] == r.provider[0];
    if !IsSpace(n[|n| - 1]) {
      StripKeeps(n);
    }
  }

  /** Parsing the normalised form of a parsed reference gives the reference back,
      default ollama URL, `@`, `:`, `=` and `?` inside its parts included, as
      long as the printed form does not end in whitespace. */
  lemma NormalizedParsesBack(value: string, keys: seq<string>, decode: Decoder)
    requires KeepsPlainText(decode) && '%' !in value && '+' !in value
    requires ParseModelRef(value, decode).Ok?
    requires ListsKeys(keys, ParseModelRef(value, decode).value.options)
    requires var n := Normalized(ParseModelRef(value, decode).value, keys); n != [] ==> !IsSpace(n[|n| - 1])
    ensures ParseModelRef(Normalized(ParseModelRef(value, decode).value, keys), decode)
            == ParseModelRef(value, decode)
  {
    var r := ParseModelRef(value, decode).value;
    ParserReturnsParsed(value, decode);
    SortedMembers(keys);
    NormalizedEnds(r, keys);
    var query := Join(Fields(Sorted(keys), r.options), '&');
    if r.options != map[] {
      QueryParsesBack(Sorted(keys), r.options, decode);
    }
    PrintedParsesBack(r, query, decode);
  }

  // ---- Whitespace-free references --------------------------------------

  lemma {:induction false} JoinAvoids(parts: seq<string>, sep: char, c: char)
    requires c != sep && forall p | p in parts :: c !in p
    ensures c !in Join(parts, sep)
  {
    if |parts| > 1 {
      JoinAvoids(parts[1..], sep, c);
    }
  }

  lemma {:induction false} ParsedFieldsAvoid(fields: seq<string>, decode: Decoder, c: char)
    requires KeepsPlainText(decode)
    requires forall f | f in fields :: '%' !in f && '+' !in f && c !in f
    ensures forall k | k in ParseFields(fields, decode) :: c !in k && c !in ParseFields(fields, decode)[k]
  {
    if fields != [] {
      ParsedFieldsAvoid(fields[1..], decode, c);
      assert fields[0] in fields;
      PartitionShape(fields[0], '=');
    }
  }

  lemma SplitModelAvoids(provider: string, part: string, c: char)
    requires c !in part && c !in OLLAMA_URL && SplitModelBaseUrl(provider, part).Ok?
    ensures var (model, baseUrl) := SplitModelBaseUrl(provider, part).value;
            c !in model && (baseUrl.Some? ==> c !in baseUrl.value)
  {
    PartitionShape(part, '@');
  }

  lemma QueryAvoids(query: string, decode: Decoder, c: char)
    requires KeepsPlainText(decode) && '%' !in query && '+' !in query && c !in query
    ensures forall k | k in ParseQuery(query, decode) :: c !in k && c !in ParseQuery(query, decode)[k]
  {
    SplitPartsAvoid(query, '&');
    if query != [] {
      ParsedFieldsAvoid(Split(query, '&'), decode, c);
    }
  }

  /** A character the reference does not contain is in none of its parts. */
  lemma ParsedPartsAvoid(value: string, decode: Decoder, c: char)
    requires KeepsPlainText(decode) && '%' !in value && '+' !in value && c !in value && c !in OLLAMA_URL
    requires ParseModelRef(value, decode).Ok?
    ensures var r := ParseModelRef(value, decode).value;
            && c !in r.provider && c !in r.model
            && (r.baseUrl.Some? ==> c !in r.baseUrl.value)
            && forall k | k in r.options :: c !in k && c !in r.options[k]
  {
    var text := Strip(value);
    StripMembers(value);
    PartitionShape(text, '?');
    var (head, _, query) := Partition(text, '?');
    PartitionShape(head, ':');
    var (provider, _, part) := Partition(head, ':');
    SplitModelAvoids(provider, part, c);
    QueryAvoids(query, decode, c);
  }

  predicate Punctuation(c: char) {
    c == ':' || c == '@' || c == '?' || c == '&' || c == '='
  }

  lemma PrintedAvoids(r: ModelRef, query: string, c: char)
    requires !Punctuation(c) && c !in r.provider && c !in r.model && c !in query
    requires r.baseUrl.Some? ==> c !in r.baseUrl.value
    ensures c !in Printed(r, query)
  {
  }

  lemma NormalizedAvoids(value: string, keys: seq<string>, decode: Decoder, c: char)
    requires KeepsPlainText(decode) && '%' !in value && '+' !in value && c !in value
    requires !Punctuation(c) && c !in OLLAMA_URL
    requires ParseModelRef(value, decode).Ok?
    requires ListsKeys(keys, ParseModelRef(value, decode).value.options)
    ensures c !in Normalized(ParseModelRef(value, decode).value, keys)
  {
    var r := ParseModelRef(value, decode).value;
    ParsedPartsAvoid(value, decode, c);
    SortedMembers(keys);
    FieldsAvoid(Sorted(keys), r.options, c);
    JoinAvoids(Fields(Sorted(keys), r.options), '&', c);
    PrintedAvoids(r, Join(Fields(Sorted(keys), r.options), '&'), c);
  }

  /** For every whitespace-free reference without `%` and `+` that parses, the
      normalised form parses back to the same reference. */
  lemma RefRoundTrip(value: string, keys: seq<string>, decode: Decoder)
    requires KeepsPlainText(decode) && '%' !in value && '+' !in value && SpaceFree(value)
    requires ParseModelRef(value, decode).Ok?
    requires ListsKeys(keys, ParseModelRef(value, decode).value.options)
    ensures ParseModelRef(Normalized(ParseModelRef(value, decode).value, keys), decode)
            == ParseModelRef(value, decode)
  {
    DefaultUrlShape();
    forall c | IsSpace(c) ensures c !in Normalized(ParseModelRef(value, decode).value, keys) {
      NormalizedAvoids(value, keys, decode, c);
    }
    NormalizedParsesBack(value, keys, decode);
  }

  /** The printed form depends on the options, not on the dict's key order. */
  lemma NormalizedIgnoresKeyOrder(r: ModelRef, keys1: seq<string>, keys2: seq<string>)
    requires ListsKeys(keys1, r.options) && ListsKeys(keys2, r.options)
    ensures Normalized(r, keys1) == Normalized(r, keys2)
  {
    SortedMembers(keys1);
    SortedMembers(keys2);
    AscendingUnique(Sorted(keys1), Sorted(keys2));
  }

  /** The printed form: the model's parts in order, and the options by ascending key. */
  lemma NormalizedMeans(r: ModelRef, keys: seq<string>, ascending: seq<string>)
    requires ListsKeys(keys, r.options) && ListsKeys(ascending, r.options) && Ascending(ascending)
    ensures var url := if r.baseUrl.GetOr("") == "" then "" else "@" + r.baseUrl.value;
            var query := if ascending == [] then "" else "?" + Join(Fields(ascending, r.options), '&');
            Normalized(r, keys) == r.provider + ":" + r.model + url + query
  {
    SortedMembers(keys);
    AscendingUnique(Sorted(keys), ascending);
    assert ascending != [] ==> ascending[0] in r.options;
    if r.options != map[] {
      var k :| k in r.options;
      assert k in ascending;
    }
  }

  /** Normalising is idempotent: parse, print, parse, print prints the same. */
  lemma NormalizingIsIdempotent(value: string, keys: seq<string>, again: seq<string>, decode: Decoder)
    requires KeepsPlainText(decode) && '%' !in value && '+' !in value && SpaceFree(value)
    requires ParseModelRef(value, decode).Ok?
    requires ListsKeys(keys, ParseModelRef(value, decode).value.options)
    requires var n := Normalized(ParseModelRef(value, decode).value, keys);
             ParseModelRef(n, decode).Ok? ==> ListsKeys(again, ParseModelRef(n, decode).value.options)
    ensures var n := Normalized(ParseModelRef(value, decode).value, keys);
            ParseModelRef(n, decode).Ok? && Normalized(ParseModelRef(n, decode).value, again) == n
  {
    RefRoundTrip(value, keys, decode);
    NormalizedIgnoresKeyOrder(ParseModelRef(value, decode).value, keys, again);
  }

  // ---- What is accepted ------------------------------------------------

  /** Neither end is whitespace. */
  ghost predicate Trimmed(s: string) {
    s != [] ==> !IsSpace(s[0]) && !IsSpace(s[|s| - 1])
  }

  const URL_PROVIDERS: set<string> := {"ollama", "openai-compatible", "azure-foundry"}

  /** A reference without options: both parts must be there and the provider known; most
      providers take the rest as the model; without a URL ollama has a default one, an
      openai-compatible provider needs one, and azure-foundry does without. */
  lemma PlainReferenceMeans(provider: string, part: string, decode: Decoder)
    requires ':' !in provider && '?' !in provider && '?' !in part && Trimmed(provider + ":" + part)
    ensures var r := ParseModelRef(provider + ":" + part, decode);
            var known := provider != "" && part != "" && provider in KNOWN_PROVIDERS;
            && (r == Err(BadSyntax) <==> provider == "" || part == "")
            && (r == Err(UnknownProvider) <==> provider != "" && part != "" && provider !in KNOWN_PROVIDERS)
            && (known && provider !in URL_PROVIDERS ==> r == Ok(ModelRef(provider, part, None, map[])))
            && (known && provider == "ollama" && '@' !in part ==>
                  r == Ok(ModelRef(provider, part, Some("http://localhost:11434"), map[])))
            && (known && provider == "openai-compatible" && '@' !in part ==> r == Err(MissingBaseUrl))
            && (known && provider == "azure-foundry" && '@' !in part ==> r == Ok(ModelRef(provider, part, None, map[])))
  {
    HeadDecides(provider, part, decode);
    if '@' !in part {
      PartitionAbsent(part, '@');
    }
  }

  lemma HeadIsSplit(provider: string, part: string)
    requires ':' !in provider && '?' !in provider && '?' !in part && Trimmed(provider + ":" + part)
    ensures var head := provider + ":" + part;
            && Strip(head) == head && Partition(head, '?') == (head, false, [])
            && Partition(head, ':') == (provider, true, part)
  {
    var head := provider + ":" + part;
    StripKeeps(head);
    PartitionAbsent(head, '?');
    PartitionFound(provider, ':', part);
  }

  /** Without options the parts alone decide. */
  lemma HeadDecides(provider: string, part: string, decode: Decoder)
    requires ':' !in provider && '?' !in provider && '?' !in part && Trimmed(provider + ":" + part)
    ensures var r, split := ParseModelRef(provider + ":" + part, decode), SplitModelBaseUrl(provider, part);
            if provider == "" || part == "" then r == Err(BadSyntax)
            else if provider !in KNOWN_PROVIDERS then r == Err(UnknownProvider)
            else if split.Err? then r == Err(split.error)
            else r == Ok(ModelRef(provider, split.value.0, split.value.1, map[]))
  {
    HeadIsSplit(provider, part);
    assert |provider + ":" + part| > 0;
  }

  /** With a URL after the first `@`: neither the model nor the URL may be empty, and the
      URL must be absolute. */
  lemma UrlReferenceMeans(provider: string, model: string, url: string, decode: Decoder)
    requires provider in URL_PROVIDERS && '@' !in model && '?' !in model && '?' !in url
    requires Trimmed(provider + ":" + model + "@" + url)
    ensures var r := ParseModelRef(provider + ":" + model + "@" + url, decode);
            && (model == "" || url == "" <==> r == Err(BadBaseRef))
            && (model != "" && url != "" && !("http://" <= url) && !("https://" <= url) <==> r == Err(RelativeBaseUrl))
            && (model != "" && ("http://" <= url || "https://" <= url) ==>
                  r == Ok(ModelRef(provider, model, Some(url), map[])))
  {
    var part := model + "@" + url;
    assert provider + ":" + part == provider + ":" + model + "@" + url;
    ProvidersAvoid(provider);
    HeadDecides(provider, part, decode);
    PartitionFound(model, '@', url);
    assert model + ['@'] + url == part;
  }

  /** Options come after the first `?`; they are read once the rest is accepted, and only
      an unknown reasoning effort is refused. */
  lemma OptionsMean(head: string, query: string, decode: Decoder)
    requires head != "" && '?' !in head && Trimmed(head) && Trimmed(head + "?" + query)
    ensures var plain, options := ParseModelRef(head, decode), ParseQuery(query, decode);
            ParseModelRef(head + "?" + query, decode)
            == if plain.Err? then plain
               else if "reasoning" in options && options["reasoning"] !in {"minimal", "low", "medium", "high"}
               then Err(BadEffort)
               else Ok(plain.value.(options := options))
  {
    var text := head + "?" + query;
    StripKeeps(head);
    StripKeeps(text);
    PartitionAbsent(head, '?');
    PartitionFound(head, '?', query);
  }

  lemma EmptyReferenceIsRefused(value: string, decode: Decoder)
    requires forall c | c in value :: IsSpace(c)
    ensures ParseModelRef(value, decode) == Err(EmptyRef)
  {
    SpacesStrip(value);
  }

  lemma {:induction false} SpacesStrip(s: string)
    requires forall c | c in s :: IsSpace(c)
    ensures StripLeft(s) == []
  {
    if s != [] {
      SpacesStrip(s[1..]);
    }
  }

  /** Fields are read from left to right: a later one replaces an earlier one of the same
      name, and one without `=` or without a value is skipped. */
  lemma {:induction false} LaterFieldWins(fields: seq<string>, field: string, decode: Decoder)
    ensures var before, after := ParseFields(fields, decode), ParseFields(fields + [field], decode);
            var (name, found, value) := Partition(field, '=');
            after == if found && value != "" then before[decode(name) := decode(value)] else before
  {
    if fields == [] {
      assert fields + [field] == [field] && [field][1..] == [];
    } else {
      assert (fields + [field])[1..] == fields[1..] + [field];
      LaterFieldWins(fields[1..], field, decode);
    }
  }

  // ---- Profiles --------------------------------------------------------

  datatype ModelProfile = ModelProfile(provider: string, model: string, transport: string,
                                       authRef: Option<string>, baseUrl: Option<string>,
                                       effort: Option<string>)

  function ProviderTransport(provider: string): string {
    if provider in {"codex", "antigravity", "composer"} then "cli"
    else if provider == "ollama" then "http"
    else "api"
  }

  function DefaultAuthRef(provider: string): Option<string> {
    if provider == "openai" || provider == "openai-compatible" then Some("env:OPENAI_API_KEY")
    else if provider == "anthropic" then Some("env:ANTHROPIC_API_KEY")
    else if provider == "gemini" then Some("env:GEMINI_API_KEY")
    else if provider == "azure-foundry" then Some("env:AZURE_FOUNDRY_API_KEY")
    else None
  }

  function ModelProfileFromRef(ref: string, authRef: Option<string>, decode: Decoder): Result<ModelProfile, RefError> {
    var r :- ParseModelRef(ref, decode);
    Ok(ModelProfile(r.provider, r.model, ProviderTransport(r.provider),
                    if authRef.Some? && authRef.value != [] then authRef else DefaultAuthRef(r.provider),
                    r.baseUrl,
                    if "reasoning" in r.options then Some(r.options["reasoning"]) else None))
  }

  /** The environment variables that hold the providers' keys. */
  const KEY_VARIABLES: map<string, string> := map[
    "openai" := "env:OPENAI_API_KEY", "openai-compatible" := "env:OPENAI_API_KEY",
    "anthropic" := "env:ANTHROPIC_API_KEY", "gemini" := "env:GEMINI_API_KEY",
    "azure-foundry" := "env:AZURE_FOUNDRY_API_KEY"
  ]

  /** What a profile takes over: the parsed provider, model, URL and effort; how the
      provider is reached; and the key given, or else the provider's own. */
  lemma ProfileMeans(ref: string, authRef: Option<string>, decode: Decoder)
    ensures var r, parsed := ModelProfileFromRef(ref, authRef, decode), ParseModelRef(ref, decode);
            && (r.Err? <==> parsed.Err?) && (r.Err? ==> r.error == parsed.error)
            && (r.Ok? ==>
                  var p, m := r.value, parsed.value;
                  && p.provider == m.provider && p.model == m.model && p.baseUrl == m.baseUrl
                  && (p.effort.Some? <==> "reasoning" in m.options)
                  && (p.effort.Some? ==> p.effort.value == m.options["reasoning"])
                  && (p.transport == "cli" <==> p.provider in {"codex", "antigravity", "composer"})
                  && (p.transport == "http" <==> p.provider == "ollama")
                  && (p.transport in {"cli", "http", "api"})
                  && (authRef.GetOr("") != "" ==> p.authRef == authRef)
                  && (authRef.GetOr("") == "" ==>
                        if p.provider in KEY_VARIABLES then p.authRef == Some(KEY_VARIABLES[p.provider])
                        else p.authRef == None))
  {
  }

  const REASONING: string := "reasoning"

  function ProfileRef(p: ModelProfile): string {
    p.provider + [':'] + p.model
    + (match p.baseUrl case Some(url) => (if url != [] then ['@'] + url else []) case None => [])
    + (match p.effort case Some(e) => (if e != [] then ['?'] + (REASONING + ['='] + e) else []) case None => [])
  }

  lemma EffortParsesBack(effort: string, decode: Decoder)
    requires KeepsPlainText(decode) && effort in EFFORTS
    ensures '&' !in effort && effort != [] && SpaceFree(effort) && '%' !in effort && '+' !in effort
    ensures ParseQuery(REASONING + ['='] + effort, decode) == map[REASONING := effort]
  {
    assert '&' !in effort && '%' !in effort && '+' !in effort && SpaceFree(effort);
    var field := REASONING + ['='] + effort;
    SplitAbsent(field, '&');
    PartitionFound(REASONING, '=', effort);
    assert decode(REASONING) == REASONING && decode(effort) == effort;
    assert [field][1..] == [];
    assert ParseFields([field], decode) == map[REASONING := effort];
  }

  /** The reference a profile prints: the parsed one without the options a
      profile does not keep. */
  ghost function KeptRef(r: ModelRef): ModelRef {
    r.(options := if REASONING in r.options then map[REASONING := r.options[REASONING]] else map[])
  }

  ghost function KeptQuery(r: ModelRef): string {
    if REASONING in r.options then REASONING + ['='] + r.options[REASONING] else ""
  }

  lemma KeptRefParsesBack(r: ModelRef, decode: Decoder)
    requires KeepsPlainText(decode) && Parsed(r) && SpaceFree(Printed(KeptRef(r), KeptQuery(r)))
    ensures ParseModelRef(Printed(KeptRef(r), KeptQuery(r)), decode) == Ok(KeptRef(r))
  {
    var kept, query := KeptRef(r), KeptQuery(r);
    if REASONING in r.options {
      EffortParsesBack(r.options[REASONING], decode);
    }
    assert Parsed(kept);
    PrintedShape(kept, query);
    var n := Printed(kept, query);
    assert n != [] && n[|n| - 1] in n && n[0] in n;
    StripKeeps(n);
    PrintedParsesBack(kept, query, decode);
  }

  lemma ProfileRefIsKept(r: ModelRef, p: ModelProfile)
    requires Parsed(r) && p.provider == r.provider && p.model == r.model && p.baseUrl == r.baseUrl
    requires p.effort == if REASONING in r.options then Some(r.options[REASONING]) else None
    ensures ProfileRef(p) == Printed(KeptRef(r), KeptQuery(r))
  {
    PrintedShape(KeptRef(r), KeptQuery(r));
    assert REASONING in r.options ==> r.options[REASONING] != [] && REASONING in KeptRef(r).options;
  }

  lemma KeptIsSpaceFree(value: string, decode: Decoder)
    requires KeepsPlainText(decode) && '%' !in value && '+' !in value && SpaceFree(value)
    requires ParseModelRef(value, decode).Ok?
    ensures var r := ParseModelRef(value, decode).value; SpaceFree(Printed(KeptRef(r), KeptQuery(r)))
  {
    var r := ParseModelRef(value, decode).value;
    DefaultUrlShape();
    assert SpaceFree(REASONING);
    forall c | IsSpace(c) ensures c !in Printed(KeptRef(r), KeptQuery(r)) {
      ParsedPartsAvoid(value, decode, c);
      PrintedAvoids(KeptRef(r), KeptQuery(r), c);
    }
  }

  /** A profile built from a reference is rebuilt by its own `model_ref`. */
  lemma ProfileRoundTrip(value: string, authRef: Option<string>, decode: Decoder)
    requires KeepsPlainText(decode) && '%' !in value && '+' !in value && SpaceFree(value)
    requires ModelProfileFromRef(value, authRef, decode).Ok?
    ensures var p := ModelProfileFromRef(value, authRef, decode).value;
            ModelProfileFromRef(ProfileRef(p), authRef, decode) == Ok(p)
  {
    var r := ParseModelRef(value, decode).value;
    ParserReturnsParsed(value, decode);
    ProfileRefIsKept(r, ModelProfileFromRef(value, authRef, decode).value);
    KeptIsSpaceFree(value, decode);
    KeptRefParsesBack(r, decode);
  }
}
