/** The `output` option: how the rendered template is handed to the bundler. */
module Output {
  import opened Wrappers
  import opened Json

  /** The option's values: left unset, `'html'`, or `'function'`. */
  datatype OutputMode = Unset | Html | Function

  const ModuleHead: string := "module.exports=function(){return "
  const ModuleTail: string := ";};"

  /**
   * The output switch: HTML (or no choice) passes the rendered text through;
   * `'function'` wraps it in a module whose exported function returns it as a
   * JSON string literal.
   */
  function FormatOutput(mode: OutputMode, rendered: string): (out: string)
  {
    match mode
    case Unset => rendered
    case Html => rendered
    case Function => ModuleHead + Stringify(rendered) + ModuleTail
  }

  /**
   * The string the exported function of a module body of the form
   * `module.exports=function(){return <literal>;};` returns.
   */
  function ReturnedString(body: string): Option<string> {
    if |body| >= |ModuleHead| + |ModuleTail| &&
       body[..|ModuleHead|] == ModuleHead && body[|body| - |ModuleTail|..] == ModuleTail
    then Parse(body[|ModuleHead|..|body| - |ModuleTail|])
    else None
  }

  /** Without `'function'` the rendered text is the output. */
  lemma HtmlPassesThrough(mode: OutputMode, rendered: string)
    requires mode != Function
    ensures FormatOutput(mode, rendered) == rendered
  {
  }

  /** With `'function'` the output is a module whose function returns exactly the rendered text. */
  lemma FunctionReturnsRendered(rendered: string)
    ensures ReturnedString(FormatOutput(Function, rendered)) == Some(rendered)
  {
    var literal := Stringify(rendered);
    var body := ModuleHead + literal + ModuleTail;
    assert body[..|ModuleHead|] == ModuleHead;
    assert body[|body| - |ModuleTail|..] == ModuleTail;
    assert body[|ModuleHead|..|body| - |ModuleTail|] == literal;
    ParseStringify(rendered);
  }

  /** The rendered text can be recovered from the output, whatever the mode. */
  lemma OutputDeterminesRendered(mode: OutputMode, rendered: string, other: string)
    requires FormatOutput(mode, rendered) == FormatOutput(mode, other)
    ensures rendered == other
  {
    if mode == Function {
      FunctionReturnsRendered(rendered);
      FunctionReturnsRendered(other);
    }
  }
}
