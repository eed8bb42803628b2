/**
 * The collaborators the scripts call but that are not part of this model:
 * `send_to_llm`, `json.loads`, the metrics module, `format_datetime`, and
 * Python's own parsing and rendering of numbers. Each is an arbitrary function.
 */
module Runtime {
  import opened Wrappers
  import opened Json

  /** What `send_to_llm` does: raise, or return a response whose
      `choices[0].message.content` is a string (`Some`) or is missing or not a string (`None`). */
  datatype Reply = Raised | Answered(content: Option<string>)

  datatype Externals = Externals(
    /** `send_to_llm(prompt, ...)` for the `n`-th call of the run (0-based). */
    send: (nat, string) -> Reply,
    /** `json.loads(text)`; `None` for a `JSONDecodeError`. */
    loads: string -> Option<Value>,
    /** `calculate_bleu_scores(pred, gt)["bleu1"]`. */
    bleu1: (string, string) -> real,
    /** `calculate_metrics(pred, gt)["f1"]`. */
    f1: (string, string) -> real,
    /** `str` of a float, list or dict. */
    repr: Value -> string,
    /** `int` of a string; `None` where it raises. */
    parseInt: string -> Option<int>,
    /** `float` of a string; `None` where it raises. */
    parseFloat: string -> Option<real>,
    /** `format_datetime`: strptime then strftime; `None` where strptime raises. */
    formatDatetime: string -> Option<string>)
  {
    function StrOf(v: Value): string { PyStr(v, repr) }

    function IntOf(v: Value): Option<int> { ToInt(v, parseInt) }

    function FloatOf(v: Value): Option<real> { ToFloat(v, parseFloat) }
  }
}
