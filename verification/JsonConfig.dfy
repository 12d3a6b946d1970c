/**
 * How the applications use the JSON library: a configuration is saved with
 * cJSON_PrintUnformatted and loaded with cJSON_Parse.
 */
module JsonConfig {
  import opened Bytes
  import opened JsonModel
  import opened JsonGrammar
  import opened JsonDocument
  import opened JsonParser
  import opened JsonPrinter

  /** json_config_save followed by json_config_load. */
  method SaveThenLoad(lib: NumberLib, config: Json, hasRealloc: bool, reliable: bool) returns (r: Option<Json>)
    requires lib.Valid() && Clean(config)
    ensures r.Some? && Finite(lib, config) ==> r.value == config
    ensures r.Some? ==> r.value == Printable(lib, config)
    ensures reliable ==>
              (r.Some? <==> Height(config) <= NESTING_LIMIT && |Render(lib, config, false, 0)| + 1 < INT_MAX)
  {
    hide Render;
    hide ParseDocument;
    hide NumberLib.Valid;
    hide Clean;
    hide Printable;
    var text := Print(lib, config, false, hasRealloc, reliable);
    if text.None? { return None; }
    var end;
    r, end := ParseWithOpts(lib, text.value, false, reliable);
    ghost var written := Render(lib, config, false, 0);
    RenderNulFree(lib, config, false, 0);
    TerminatedText(lib, written, false);
    PrintThenParse(lib, config, false, false);
    PrintableIff(lib, config);
  }

  /** The reader stops at the terminator. */
  lemma TerminatedText(lib: NumberLib, text: bytes, strict: bool)
    requires NulFree(text)
    ensures ParseDocument(lib, text + [NUL], strict) == ParseDocument(lib, text, strict)
  {
    hide ParseValue;
    CStringOfNulFree(text);
    CStringAt(text + [NUL], |text|);
    assert (text + [NUL])[..|text|] == text;
  }
}
