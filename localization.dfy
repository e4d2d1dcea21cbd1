/**
 * `get_translation` of `localization.py`: the lookup in the translation table
 * with its two fallbacks, and `str.format(**kwargs)` on the text found, with
 * the two ways the source recovers from a formatting error.
 *
 * The format mini-language is modelled after CPython's `str.format`
 * (`MarkupIterator` and `parse_field`): literal text, `{{` and `}}` escapes,
 * replacement fields with an optional `!conversion` and `:spec`. Keyword
 * arguments are given by the text `str()` makes of their values.
 */
module Localization {
  import opened Common

  const IT: map<string, string> := map[
    "title" := "Trova il volo più economico ✈️",
    "intro_text" := "Questa applicazione ti aiuta a trovare i voli più economici tra due aeroporti. Seleziona gli aeroporti di partenza e arrivo, il mese di partenza e il tempo massimo di scalo per iniziare la ricerca.",
    "select_departure" := "Seleziona aeroporto di partenza",
    "select_arrival" := "Seleziona aeroporto di arrivo",
    "departure_date" := "Seleziona il mese di partenza:",
    "max_layover" := "Tempo massimo di scalo (giorni):",
    "search_flights" := "Cerca voli",
    "searching" := "🔍 Cercando i voli migliori...",
    "checking_routes" := "🔄 Controllando le rotte disponibili...",
    "no_connections" := "❌ Nessuna connessione trovata!",
    "connections_found" := "✅ {count} connessioni trovate!",
    "download_excel" := "📥 Scarica Excel",
    "search_error" := "Errore durante la ricerca",
    "error_airports" := "Impossibile recuperare l'elenco degli aeroporti",
    "config_options" := "Opzioni di configurazione",
    "verify_ssl" := "Verifica certificati SSL",
    "currency" := "Valuta",
    "feedback_form" := "Inviaci i tuoi suggerimenti",
    "feedback_intro" := "Aiutaci a migliorare questa applicazione con i tuoi suggerimenti!",
    "feedback_name" := "Nome (opzionale)",
    "feedback_email" := "Email (opzionale)",
    "feedback_type" := "Tipo di feedback",
    "feedback_bug" := "Segnalazione bug",
    "feedback_feature" := "Suggerimento funzionalità",
    "feedback_other" := "Altro",
    "feedback_message" := "Il tuo messaggio",
    "submit_feedback" := "Invia feedback",
    "feedback_success" := "Grazie per il tuo feedback!",
    "feedback_empty" := "Per favore, inserisci un messaggio."
  ]

  const EN: map<string, string> := map[
    "title" := "Find the cheapest flight ✈️",
    "intro_text" := "This application helps you find the cheapest flights between two airports. Select the departure and arrival airports, the departure month, and the maximum layover time to start your search.",
    "select_departure" := "Select departure airport",
    "select_arrival" := "Select arrival airport",
    "departure_date" := "Select the departure month:",
    "max_layover" := "Maximum layover time (days):",
    "search_flights" := "Search flights",
    "searching" := "🔍 Searching for the best flights...",
    "checking_routes" := "🔄 Checking available routes...",
    "no_connections" := "❌ No connections found!",
    "connections_found" := "✅ {count} connections found!",
    "download_excel" := "📥 Download Excel",
    "search_error" := "Error during search",
    "error_airports" := "Unable to retrieve airport list",
    "config_options" := "Configuration Options",
    "verify_ssl" := "Verify SSL certificates",
    "currency" := "Currency",
    "feedback_form" := "Send us your suggestions",
    "feedback_intro" := "Help us improve this application with your suggestions!",
    "feedback_name" := "Name (optional)",
    "feedback_email" := "Email (optional)",
    "feedback_type" := "Feedback type",
    "feedback_bug" := "Bug report",
    "feedback_feature" := "Feature suggestion",
    "feedback_other" := "Other",
    "feedback_message" := "Your message",
    "submit_feedback" := "Submit feedback",
    "feedback_success" := "Thank you for your feedback!",
    "feedback_empty" := "Please enter a message."
  ]

  const SC: map<string, string> := map[
    "title" := "Tròva su bigliettu prusòriu ✈️",
    "intro_text" := "Cust'applicatzioni ti agiudat a tròvai is bigliettus prusòrius tra duus aeroportus. Seleziona is aeroportus de partenza e arrivu, su mese de partenza e su tempu màssimu de scalu pro cumintzai sa chirca.",
    "select_departure" := "Seleziona aeroportu de partenza",
    "select_arrival" := "Seleziona aeroportu de arrivo",
    "departure_date" := "Seleziona su mese de partenza:",
    "max_layover" := "Tempu màssimu de scalu (dies):",
    "search_flights" := "Chirca bigliettus",
    "searching" := "🔍 Chirchende is bigliettus mègius...",
    "checking_routes" := "🔄 Controlende is tratas disponìbiles...",
    "no_connections" := "❌ Connessionis no agiòbius!",
    "connections_found" := "✅ {count} connessionis agiòbius!",
    "download_excel" := "📥 Scariga Excel",
    "search_error" := "Errore durante sa chirca",
    "error_airports" := "Impossìbile a recuperare sa lista de is aeroportus",
    "config_options" := "Optziones de cunfiguratzione",
    "verify_ssl" := "Verìfica tzertificadus SSL",
    "currency" := "Moneda",
    "feedback_form" := "Imbia·nos is suggerimentos tuos",
    "feedback_intro" := "Agiuda·nos a megiorare custa aplicatzione cun is suggerimentos tuos!",
    "feedback_name" := "Nòmine (optzionale)",
    "feedback_email" := "Email (optzionale)",
    "feedback_type" := "Tipu de feedback",
    "feedback_bug" := "Sinnalu de bug",
    "feedback_feature" := "Suggerimentu de funtzionalidade",
    "feedback_other" := "Àteru",
    "feedback_message" := "Su messaggiu tuo",
    "submit_feedback" := "Imbia feedback",
    "feedback_success" := "Gràtzias pro su feedback tuo!",
    "feedback_empty" := "Pro praghere, inserta unu messaggiu."
  ]

  /** The module-level `translations` dictionary. */
  const TRANSLATIONS: map<string, map<string, string>> := map["it" := IT, "en" := EN, "sc" := SC]

  // ---------------------------------------------------------------------------
  // str.format
  // ---------------------------------------------------------------------------

  /** A replacement field: the field name, the conversion character after
      `!` and the format spec after `:`. */
  datatype Field = Field(name: string, conversion: Option<char>, spec: string)

  /** How formatting ends: the formatted text, a KeyError naming the missing
      keyword, any other exception (ValueError, IndexError), or a field whose
      rendering depends on the type of its value, which the model does not know. */
  datatype Outcome = Done(text: string) | KeyMissing(key: string) | Raised | Unmodelled

  predicate IsBrace(c: char) {
    c == '{' || c == '}'
  }

  predicate BraceFree(s: string) {
    forall i :: 0 <= i < |s| ==> !IsBrace(s[i])
  }

  /** The length of the literal text before the first brace. */
  function LiteralRun(s: string): (n: nat)
    ensures n <= |s| && BraceFree(s[..n])
    ensures n < |s| ==> IsBrace(s[n])
  {
    if s == [] || IsBrace(s[0]) then 0
    else
      var m := LiteralRun(s[1..]);
      assert s[..m + 1] == [s[0]] + s[1..][..m];
      1 + m
  }

  /** The position of the first `]` at or after `i`. */
  function CloseBracket(t: string, i: nat): (r: Option<nat>)
    ensures r.Some? ==> i <= r.value < |t| && t[r.value] == ']'
    decreases |t| - i
  {
    if i >= |t| then None
    else if t[i] == ']' then Some(i)
    else CloseBracket(t, i + 1)
  }

  /** The position of the `}`, `:` or `!` ending the field name that starts at
      `i`; a `{` in the name, or the end of the text, is an error. Inside
      `[...]` no character ends the name. */
  function NameEnd(t: string, i: nat): (r: Option<nat>)
    ensures r.Some? ==> i <= r.value < |t| && t[r.value] in "}:!"
    decreases |t| - i
  {
    if i >= |t| then None
    else if t[i] == '{' then None
    else if t[i] == '[' then
      match CloseBracket(t, i + 1)
      case None => None
      case Some(j) => NameEnd(t, j + 1)
    else if t[i] in "}:!" then Some(i)
    else NameEnd(t, i + 1)
  }

  /** The position of the `}` that closes a format spec, where nested braces
      are counted. */
  function SpecEnd(u: string, i: nat, depth: nat): (r: Option<nat>)
    requires depth >= 1
    ensures r.Some? ==> i <= r.value < |u| && u[r.value] == '}'
    decreases |u| - i
  {
    if i >= |u| then None
    else if u[i] == '{' then SpecEnd(u, i + 1, depth + 1)
    else if u[i] == '}' then (if depth == 1 then Some(i) else SpecEnd(u, i + 1, depth - 1))
    else SpecEnd(u, i + 1, depth)
  }

  function SpecField(name: string, conversion: Option<char>, u: string): (r: Option<(Field, string)>)
    ensures r.Some? ==> |r.value.1| < |u|
  {
    match SpecEnd(u, 0, 1)
    case None => None
    case Some(e) => Some((Field(name, conversion, u[..e]), u[e + 1..]))
  }

  /** The field that follows a `{`, and the text after its closing `}`;
      `None` is the ValueError of a malformed field. */
  function ParseField(t: string): (r: Option<(Field, string)>)
    ensures r.Some? ==> |r.value.1| < |t|
  {
    match NameEnd(t, 0)
    case None => None
    case Some(q) =>
      var name := t[..q];
      if t[q] == '}' then Some((Field(name, None, ""), t[q + 1..]))
      else if t[q] == ':' then SpecField(name, None, t[q + 1..])
      else if q + 2 >= |t| then None
      else if t[q + 2] == '}' then Some((Field(name, Some(t[q + 1]), ""), t[q + 3..]))
      else if t[q + 2] == ':' then SpecField(name, Some(t[q + 1]), t[q + 3..])
      else None
  }

  /** The part of a field name before the first `.` or `[`. */
  function FirstPart(name: string): (r: string)
    ensures r <= name
    ensures forall i :: 0 <= i < |r| ==> r[i] != '.' && r[i] != '['
  {
    if name == [] || name[0] == '.' || name[0] == '[' then []
    else
      var r := [name[0]] + FirstPart(name[1..]);
      assert name == [name[0]] + name[1..];
      r
  }

  predicate AllDigits(s: string) {
    s != [] && forall i :: 0 <= i < |s| ==> '0' <= s[i] <= '9'
  }

  /** The text a field stands for. With no positional arguments, an empty or
      numeric name raises IndexError; a missing keyword raises KeyError before
      the conversion and the spec are looked at. */
  function Resolve(f: Field, kwargs: map<string, string>): (r: Outcome)
    ensures r.KeyMissing? ==> r.key == FirstPart(f.name) && r.key !in kwargs
    ensures r.Done? ==> f.name in kwargs && r.text == kwargs[f.name]
  {
    var first := FirstPart(f.name);
    if first == [] || AllDigits(first) then Raised
    else if first !in kwargs then KeyMissing(first)
    else if |first| < |f.name| then Unmodelled
    else if f.conversion.Some? && f.conversion.value in "ra" then Unmodelled
    else if f.conversion.Some? && f.conversion.value != 's' then Raised
    else if f.spec != [] then Unmodelled
    else
      assert first == f.name;
      Done(kwargs[first])
  }

  function Prepend(p: string, o: Outcome): Outcome {
    match o
    case Done(t) => Done(p + t)
    case _ => o
  }

  /** `text.format(**kwargs)`, left to right: literal text up to the first
      brace is copied, and the first error ends it. */
  function Format(s: string, kwargs: map<string, string>): (r: Outcome)
    ensures r.KeyMissing? ==> r.key !in kwargs
    decreases |s|, 1
  {
    var n := LiteralRun(s);
    if n == |s| then Done(s) else Prepend(s[..n], FormatBrace(s[n..], kwargs))
  }

  /** Formatting from a brace on: an escaped brace, a stray `}`, or a field. */
  function FormatBrace(t: string, kwargs: map<string, string>): (r: Outcome)
    requires t != [] && IsBrace(t[0])
    ensures r.KeyMissing? ==> r.key !in kwargs
    ensures t[0] == '}' && (|t| == 1 || t[1] != '}') ==> r == Raised
    decreases |t|, 0
  {
    if |t| > 1 && t[1] == t[0] then Prepend([t[0]], Format(t[2..], kwargs))
    else if t[0] == '}' then Raised
    else
      match ParseField(t[1..])
      case None => Raised
      case Some((field, after)) =>
        match Resolve(field, kwargs)
        case Done(v) => Prepend(v, Format(after, kwargs))
        case other => other
  }

  // ---------------------------------------------------------------------------
  // repr of a str, as str(KeyError(key)) shows it
  // ---------------------------------------------------------------------------

  function HexDigit(d: int): char
    requires 0 <= d < 16
  {
    "0123456789abcdef"[d]
  }

  function EscapeChar(c: char, quote: char): (r: string)
    ensures |r| >= 1
  {
    if c == quote || c == '\\' then ['\\', c]
    else if c == '\t' then "\\t"
    else if c == '\n' then "\\n"
    else if c == '\r' then "\\r"
    else if c < ' ' || ('\U{7f}' <= c <= '\U{a0}') || c == '\U{ad}' then
      ['\\', 'x', HexDigit(c as int / 16), HexDigit(c as int % 16)]
    else [c]
  }

  function EscapeAll(s: string, quote: char): string {
    if s == [] then [] else EscapeChar(s[0], quote) + EscapeAll(s[1..], quote)
  }

  /** Single quotes unless the text holds a single quote and no double quote. */
  function Repr(s: string): (r: string)
    ensures |r| >= 2 && r[0] == r[|r| - 1] && r[0] in "'\""
    ensures r[0] == (if '\'' in s && '"' !in s then '"' else '\'')
    ensures r == [r[0]] + EscapeAll(s, r[0]) + [r[0]]
  {
    var quote := if '\'' in s && '"' !in s then '"' else '\'';
    [quote] + EscapeAll(s, quote) + [quote]
  }

  // ---------------------------------------------------------------------------
  // get_translation
  // ---------------------------------------------------------------------------

  /** The text `translations.get(language, {}).get(key, key)` after the
      language fallback. */
  function TextFor(translations: map<string, map<string, string>>, language: string, key: string): (r: string)
    ensures language in translations && key in translations[language] ==> r == translations[language][key]
    ensures language !in translations && "en" in translations && key in translations["en"] ==> r == translations["en"][key]
    ensures language in translations && key !in translations[language] ==> r == key
    ensures language !in translations && ("en" !in translations || key !in translations["en"]) ==> r == key
  {
    var lang := if language in translations then language else "en";
    var entries := if lang in translations then translations[lang] else map[];
    if key in entries then entries[key] else key
  }

  /** What get_translation appends to a text whose keyword `key` is missing. */
  function MissingNote(key: string): string {
    " (Missing format parameter: " + Repr(key) + ")"
  }

  /** The two recoveries of get_translation. */
  function Recover(text: string, o: Outcome): (r: Option<string>)
    ensures r.Some? <==> !o.Unmodelled?
    ensures o.Done? ==> r == Some(o.text)
    ensures o.KeyMissing? ==> r == Some(text + MissingNote(o.key))
    ensures o == Raised ==> r == Some(text)
    ensures r.Some? && !o.Done? ==> text <= r.value
  {
    match o
    case Done(s) => Some(s)
    case KeyMissing(k) => Some(text + MissingNote(k))
    case Raised => Some(text)
    case Unmodelled => None
  }

  /** `get_translation(language, key, **kwargs)` over the table `translations`
      (the module's own table is `TRANSLATIONS`). `None` marks a text whose
      fields the model does not render. */
  function GetTranslation(translations: map<string, map<string, string>>, language: string, key: string,
                          kwargs: map<string, string>): (r: Option<string>)
    ensures r.None? <==> Format(TextFor(translations, language, key), kwargs).Unmodelled?
    ensures Format(TextFor(translations, language, key), kwargs).Done? ==>
              r == Some(Format(TextFor(translations, language, key), kwargs).text)
    ensures Format(TextFor(translations, language, key), kwargs).KeyMissing? ==>
              r == Some(TextFor(translations, language, key)
                        + MissingNote(Format(TextFor(translations, language, key), kwargs).key))
    ensures Format(TextFor(translations, language, key), kwargs) == Raised ==>
              r == Some(TextFor(translations, language, key))
    ensures r.Some? && !Format(TextFor(translations, language, key), kwargs).Done? ==>
              TextFor(translations, language, key) <= r.value
  {
    var text := TextFor(translations, language, key);
    Recover(text, Format(text, kwargs))
  }

  // ---------------------------------------------------------------------------
  // Properties of str.format
  // ---------------------------------------------------------------------------

  lemma {:induction false} LiteralRunAppend(p: string, s: string)
    requires BraceFree(p)
    ensures LiteralRun(p + s) == |p| + LiteralRun(s)
  {
    if p != [] {
      assert !IsBrace(p[0]);
      assert (p + s)[0] == p[0] && (p + s)[1..] == p[1..] + s;
      assert forall i :: 0 <= i < |p| - 1 ==> p[1..][i] == p[i + 1];
      LiteralRunAppend(p[1..], s);
      assert LiteralRun(p + s) == 1 + LiteralRun(p[1..] + s);
    } else {
      assert p + s == s;
    }
  }

  lemma PrependPrepend(p: string, q: string, o: Outcome)
    ensures Prepend(p, Prepend(q, o)) == Prepend(p + q, o)
  {
    if o.Done? {
      assert p + (q + o.text) == (p + q) + o.text;
    }
  }

  /** Literal text before the first brace is copied through. */
  lemma FormatLiteralPrefix(p: string, s: string, kwargs: map<string, string>)
    requires BraceFree(p)
    ensures Format(p + s, kwargs) == Prepend(p, Format(s, kwargs))
  {
    LiteralRunAppend(p, s);
    var m := LiteralRun(s);
    if m < |s| {
      var rest := FormatBrace(s[m..], kwargs);
      assert (p + s)[|p| + m..] == s[m..];
      assert (p + s)[..|p| + m] == p + s[..m];
      assert Format(p + s, kwargs) == Prepend(p + s[..m], rest);
      assert Format(s, kwargs) == Prepend(s[..m], rest);
      PrependPrepend(p, s[..m], rest);
    } else {
      assert Format(p + s, kwargs) == Done(p + s);
    }
  }

  /** A text without braces formats to itself, whatever the arguments. */
  lemma FormatBraceFree(s: string, kwargs: map<string, string>)
    requires BraceFree(s)
    ensures Format(s, kwargs) == Done(s)
  {
    FormatLiteralPrefix(s, [], kwargs);
    assert s + [] == s;
  }

  /** From a brace on, `Format` is `FormatBrace`. */
  lemma FormatAtBrace(t: string, kwargs: map<string, string>)
    requires t != [] && IsBrace(t[0])
    ensures Format(t, kwargs) == FormatBrace(t, kwargs)
  {
    assert LiteralRun(t) == 0;
    assert t[..0] == [] && t[0..] == t;
    var o := FormatBrace(t, kwargs);
    if o.Done? {
      assert [] + o.text == o.text;
    }
  }

  /** `{{` and `}}` stand for one brace. */
  lemma FormatEscape(c: char, s: string, kwargs: map<string, string>)
    requires IsBrace(c)
    ensures Format([c, c] + s, kwargs) == Prepend([c], Format(s, kwargs))
  {
    var t := [c, c] + s;
    FormatAtBrace(t, kwargs);
    assert t[2..] == s;
  }

  /** A `}` that is not doubled raises ValueError. */
  lemma FormatStrayClose(s: string, kwargs: map<string, string>)
    requires s == [] || s[0] != '}'
    ensures Format("}" + s, kwargs) == Raised
  {
    var t := "}" + s;
    FormatAtBrace(t, kwargs);
    assert |t| > 1 ==> t[1] == s[0];
  }

  /** A name that is a plain keyword: not empty, not a number, and without
      the characters that end a name or start an attribute or index. */
  predicate PlainName(name: string) {
    name != [] && !AllDigits(name) && forall i :: 0 <= i < |name| ==> name[i] !in "{}[:!."
  }

  lemma {:induction false} NameEndPlain(name: string, s: string, i: nat)
    requires i <= |name| && forall k :: 0 <= k < |name| ==> name[k] !in "{}[:!."
    ensures NameEnd(name + "}" + s, i) == Some(|name|)
    decreases |name| - i
  {
    var t := name + "}" + s;
    assert t[|name|] == '}';
    if i < |name| {
      assert t[i] == name[i];
      NameEndPlain(name, s, i + 1);
    }
  }

  lemma {:induction false} FirstPartPlain(name: string)
    requires forall k :: 0 <= k < |name| ==> name[k] != '.' && name[k] != '['
    ensures FirstPart(name) == name
  {
    if name != [] {
      FirstPartPlain(name[1..]);
      assert name == [name[0]] + name[1..];
    }
  }

  /** `{name}` is replaced by the keyword's text, or raises KeyError naming it. */
  lemma FormatPlaceholder(name: string, s: string, kwargs: map<string, string>)
    requires PlainName(name)
    ensures Format("{" + name + "}" + s, kwargs)
            == if name in kwargs then Prepend(kwargs[name], Format(s, kwargs)) else KeyMissing(name)
  {
    var t := "{" + name + "}" + s;
    var rest := name + "}" + s;
    FormatAtBrace(t, kwargs);
    assert t[1..] == rest;
    assert t[1] == name[0];
    NameEndPlain(name, s, 0);
    assert rest[..|name|] == name;
    assert rest[|name| + 1..] == s;
    assert ParseField(rest) == Some((Field(name, None, ""), s));
    FirstPartPlain(name);
  }

  /** With no positional arguments, `{}` and `{0}` raise IndexError. */
  lemma FormatPositional(digits: string, s: string, kwargs: map<string, string>)
    requires digits == [] || AllDigits(digits)
    ensures Format("{" + digits + "}" + s, kwargs) == Raised
  {
    var t := "{" + digits + "}" + s;
    var rest := digits + "}" + s;
    FormatAtBrace(t, kwargs);
    assert t[1..] == rest;
    assert t[1] == (digits + "}")[0];
    NameEndPlain(digits, s, 0);
    assert rest[..|digits|] == digits;
    FirstPartPlain(digits);
  }

  /** Keyword arguments no field uses do not change a successful result. */
  lemma {:induction false} FormatExtraArguments(s: string, kwargs: map<string, string>, more: map<string, string>)
    requires forall k :: k in kwargs ==> k in more && more[k] == kwargs[k]
    ensures Format(s, kwargs).Done? ==> Format(s, more) == Format(s, kwargs)
    decreases |s|, 1
  {
    var n := LiteralRun(s);
    if n < |s| {
      FormatBraceExtraArguments(s[n..], kwargs, more);
    }
  }

  lemma {:induction false} FormatBraceExtraArguments(t: string, kwargs: map<string, string>, more: map<string, string>)
    requires t != [] && IsBrace(t[0])
    requires forall k :: k in kwargs ==> k in more && more[k] == kwargs[k]
    ensures FormatBrace(t, kwargs).Done? ==> FormatBrace(t, more) == FormatBrace(t, kwargs)
    decreases |t|, 0
  {
    if |t| > 1 && t[1] == t[0] {
      FormatExtraArguments(t[2..], kwargs, more);
    } else if t[0] != '}' {
      match ParseField(t[1..])
      case None =>
      case Some((field, after)) =>
        if Resolve(field, kwargs).Done? {
          assert Resolve(field, more) == Resolve(field, kwargs);
          FormatExtraArguments(after, kwargs, more);
        }
    }
  }

  // ---------------------------------------------------------------------------
  // Properties of get_translation
  // ---------------------------------------------------------------------------

  /** Any formatting error other than a missing keyword gives the raw text
      (localization.py:112-114). */
  lemma OtherErrorRawText(translations: map<string, map<string, string>>, language: string, key: string,
                          kwargs: map<string, string>)
    requires Format(TextFor(translations, language, key), kwargs) == Raised
    ensures GetTranslation(translations, language, key, kwargs) == Some(TextFor(translations, language, key))
  {
  }

  /** A text with a single `}` after brace-free text is returned raw. */
  lemma StrayCloseRawText(translations: map<string, map<string, string>>, language: string, key: string,
                          kwargs: map<string, string>, p: string, s: string)
    requires TextFor(translations, language, key) == p + "}" + s
    requires BraceFree(p) && (s == [] || s[0] != '}')
    ensures GetTranslation(translations, language, key, kwargs) == Some(p + "}" + s)
  {
    var text := TextFor(translations, language, key);
    assert Format(text, kwargs) == Raised by {
      assert text == p + ("}" + s);
      FormatLiteralPrefix(p, "}" + s, kwargs);
      FormatStrayClose(s, kwargs);
    }
    OtherErrorRawText(translations, language, key, kwargs);
  }

  /** An unsupported language is answered in English. */
  lemma UnsupportedLanguage(translations: map<string, map<string, string>>, language: string, key: string,
                            kwargs: map<string, string>)
    requires language !in translations
    ensures GetTranslation(translations, language, key, kwargs) == GetTranslation(translations, "en", key, kwargs)
  {
  }

  /** A key the language does not define is its own text. */
  lemma UnknownKey(translations: map<string, map<string, string>>, language: string, key: string,
                   kwargs: map<string, string>)
    requires language in translations && key !in translations[language]
    ensures GetTranslation(translations, language, key, kwargs) == Recover(key, Format(key, kwargs))
  {
  }

  /** A text without braces is returned unchanged. */
  lemma PlainText(translations: map<string, map<string, string>>, language: string, key: string,
                  kwargs: map<string, string>)
    requires BraceFree(TextFor(translations, language, key))
    ensures GetTranslation(translations, language, key, kwargs) == Some(TextFor(translations, language, key))
  {
    FormatBraceFree(TextFor(translations, language, key), kwargs);
  }

  /** A text with one plain placeholder. */
  lemma FormatOnePlaceholder(prefix: string, name: string, suffix: string, kwargs: map<string, string>)
    requires BraceFree(prefix) && PlainName(name) && BraceFree(suffix)
    ensures Format(prefix + "{" + name + "}" + suffix, kwargs)
            == if name in kwargs then Done(prefix + kwargs[name] + suffix) else KeyMissing(name)
  {
    var rest := "{" + name + "}" + suffix;
    assert prefix + "{" + name + "}" + suffix == prefix + rest;
    assert Format(prefix + rest, kwargs) == Prepend(prefix, Format(rest, kwargs)) by {
      FormatLiteralPrefix(prefix, rest, kwargs);
    }
    assert Format(rest, kwargs) == (if name in kwargs then Prepend(kwargs[name], Done(suffix)) else KeyMissing(name)) by {
      FormatPlaceholder(name, suffix, kwargs);
      FormatBraceFree(suffix, kwargs);
    }
    if name in kwargs {
      assert prefix + (kwargs[name] + suffix) == prefix + kwargs[name] + suffix;
    }
  }

  /** A text `prefix + "{name}" + suffix` gets the keyword's text, or the
      missing-parameter note naming it. */
  lemma OnePlaceholder(translations: map<string, map<string, string>>, language: string, key: string,
                       prefix: string, name: string, suffix: string, kwargs: map<string, string>)
    requires TextFor(translations, language, key) == prefix + "{" + name + "}" + suffix
    requires BraceFree(prefix) && PlainName(name) && BraceFree(suffix)
    ensures name in kwargs ==>
              GetTranslation(translations, language, key, kwargs) == Some(prefix + kwargs[name] + suffix)
    ensures name !in kwargs ==>
              GetTranslation(translations, language, key, kwargs)
              == Some(prefix + "{" + name + "}" + suffix + MissingNote(name))
  {
    FormatOnePlaceholder(prefix, name, suffix, kwargs);
  }

  /** Printable ASCII other than the quote and the backslash is shown as is. */
  predicate PlainChar(c: char) {
    ' ' <= c < '\U{7f}' && c != '\'' && c != '\\'
  }

  lemma {:induction false} EscapeAllPlain(s: string, quote: char)
    requires quote == '\'' && forall i :: 0 <= i < |s| ==> PlainChar(s[i])
    ensures EscapeAll(s, quote) == s
  {
    if s != [] {
      EscapeAllPlain(s[1..], quote);
      assert s == [s[0]] + s[1..];
    }
  }

  /** The repr of such a text is the text in single quotes. */
  lemma ReprPlain(s: string)
    requires forall i :: 0 <= i < |s| ==> PlainChar(s[i])
    ensures Repr(s) == "'" + s + "'"
  {
    assert forall i :: 0 <= i < |s| ==> s[i] != '\'';
    EscapeAllPlain(s, '\'');
  }

  /** A key with a single quote and no double quote is shown between double
      quotes, unescaped; with both quotes, single quotes and an escaped `'`. */
  lemma ReprQuotes()
    ensures Repr("it's") == "\"it's\""
    ensures Repr("\"'") == "'\"\\''"
  {
    assert '\'' in "it's" && '"' !in "it's";
    assert EscapeAll("it's", '"') == "it's" by {
      assert "it's"[1..] == "t's" && "t's"[1..] == "'s" && "'s"[1..] == "s" && "s"[1..] == [];
    }
    assert '"' in "\"'";
    assert EscapeAll("\"'", '\'') == "\"\\'" by {
      assert "\"'"[1..] == "'" && "'"[1..] == [];
    }
  }

  // ---------------------------------------------------------------------------
  // The module's own table
  // ---------------------------------------------------------------------------

  /** The languages of the table. */
  lemma TableLanguages()
    ensures TRANSLATIONS.Keys == {"it", "en", "sc"}
  {
  }

  lemma EnglishTable()
    ensures "en" in TRANSLATIONS && TRANSLATIONS["en"] == EN
  {
  }

  lemma ItalianTable()
    ensures "it" in TRANSLATIONS && TRANSLATIONS["it"] == IT
  {
  }

  lemma SardinianTable()
    ensures "sc" in TRANSLATIONS && TRANSLATIONS["sc"] == SC
  {
  }

  lemma CountIsPlain()
    ensures PlainName("count") && Repr("count") == "'count'"
  {
    var c := "count";
    assert c[0] == 'c' && c[1] == 'o' && c[2] == 'u' && c[3] == 'n' && c[4] == 't';
    assert !AllDigits(c) by {
      assert !('0' <= c[0] <= '9');
    }
    ReprPlain(c);
  }

  /** The count message of any language: its one `count` field filled in, or
      the note that `count` was not given. */
  lemma CountMessage(translations: map<string, map<string, string>>, language: string,
                     prefix: string, suffix: string, kwargs: map<string, string>)
    requires TextFor(translations, language, "connections_found") == prefix + "{count}" + suffix
    requires BraceFree(prefix) && BraceFree(suffix)
    ensures "count" in kwargs ==>
              GetTranslation(translations, language, "connections_found", kwargs)
              == Some(prefix + kwargs["count"] + suffix)
    ensures "count" !in kwargs ==>
              GetTranslation(translations, language, "connections_found", kwargs)
              == Some(prefix + "{count}" + suffix + " (Missing format parameter: 'count')")
  {
    CountIsPlain();
    CountNote();
    var text := prefix + "{count}" + suffix;
    assert text == prefix + "{" + "count" + "}" + suffix;
    OnePlaceholder(translations, language, "connections_found", prefix, "count", suffix, kwargs);
  }

  lemma CountNote()
    ensures MissingNote("count") == " (Missing format parameter: 'count')"
  {
    CountIsPlain();
  }

  /** The English count message. */
  lemma ConnectionsFoundEnglish(translations: map<string, map<string, string>>, kwargs: map<string, string>)
    requires "en" in translations && translations["en"] == EN
    ensures "count" in kwargs ==>
              GetTranslation(translations, "en", "connections_found", kwargs)
              == Some("✅ " + kwargs["count"] + " connections found!")
    ensures "count" !in kwargs ==>
              GetTranslation(translations, "en", "connections_found", kwargs)
              == Some("✅ {count} connections found!" + " (Missing format parameter: 'count')")
  {
    assert "connections_found" in EN && EN["connections_found"] == "✅ {count} connections found!";
    SplitEnglish();
    CountMessage(translations, "en", "✅ ", " connections found!", kwargs);
  }

  lemma SplitEnglish()
    ensures "✅ {count} connections found!" == "✅ " + "{count}" + " connections found!"
    ensures BraceFree("✅ ") && BraceFree(" connections found!")
  {
  }

  /** The Italian count message. */
  lemma ConnectionsFoundItalian(translations: map<string, map<string, string>>, kwargs: map<string, string>)
    requires "it" in translations && translations["it"] == IT
    ensures "count" in kwargs ==>
              GetTranslation(translations, "it", "connections_found", kwargs)
              == Some("✅ " + kwargs["count"] + " connessioni trovate!")
    ensures "count" !in kwargs ==>
              GetTranslation(translations, "it", "connections_found", kwargs)
              == Some("✅ {count} connessioni trovate!" + " (Missing format parameter: 'count')")
  {
    assert "connections_found" in IT && IT["connections_found"] == "✅ {count} connessioni trovate!";
    SplitItalian();
    CountMessage(translations, "it", "✅ ", " connessioni trovate!", kwargs);
  }

  lemma SplitItalian()
    ensures "✅ {count} connessioni trovate!" == "✅ " + "{count}" + " connessioni trovate!"
    ensures BraceFree("✅ ") && BraceFree(" connessioni trovate!")
  {
  }

  /** The Sardinian count message. */
  lemma ConnectionsFoundSardinian(translations: map<string, map<string, string>>, kwargs: map<string, string>)
    requires "sc" in translations && translations["sc"] == SC
    ensures "count" in kwargs ==>
              GetTranslation(translations, "sc", "connections_found", kwargs)
              == Some("✅ " + kwargs["count"] + " connessionis agiòbius!")
    ensures "count" !in kwargs ==>
              GetTranslation(translations, "sc", "connections_found", kwargs)
              == Some("✅ {count} connessionis agiòbius!" + " (Missing format parameter: 'count')")
  {
    assert "connections_found" in SC && SC["connections_found"] == "✅ {count} connessionis agiòbius!";
    SplitSardinian();
    CountMessage(translations, "sc", "✅ ", " connessionis agiòbius!", kwargs);
  }

  lemma SplitSardinian()
    ensures "✅ {count} connessionis agiòbius!" == "✅ " + "{count}" + " connessionis agiòbius!"
    ensures BraceFree("✅ ") && BraceFree(" connessionis agiòbius!")
  {
  }

  /** The Italian and Sardinian tables define the same keys as the English one. */
  lemma SameKeysItalian()
    ensures IT.Keys == EN.Keys
  {
  }

  lemma SameKeysSardinian()
    ensures SC.Keys == EN.Keys
  {
  }
}
