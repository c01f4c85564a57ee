/**
 * The options holder every formatter builds on: one mutable field holding
 * the formatter's options, replaced wholesale by the setter and read back by
 * the getter. `None` stands for the options being undefined.
 */
module Formatters {
  import opened JsValues

  class BaseFormatter<Options> {
    var formatterOptions: Option<Options>

    /** The field is declared without an initialiser, so a new formatter holds no options. */
    constructor ()
      ensures formatterOptions == None
    {
      formatterOptions := None;
    }

    /**
     * Replaces the stored options with `options` (no merging with the old
     * ones; `None` clears them, as a call with no argument does) and returns
     * this same formatter, for chaining.
     */
    method SetFormatterOptions(options: Option<Options>) returns (self: BaseFormatter<Options>)
      modifies this
      ensures formatterOptions == options
      ensures self == this
    {
      formatterOptions := options;
      self := this;
    }

    /** Returns the stored options and changes nothing. */
    method GetFormatterOptions() returns (options: Option<Options>)
      ensures options == formatterOptions
    {
      options := formatterOptions;
    }
  }

  /**
   * The options read back are the ones last written: two writes in a row
   * leave only the second, a chained set-then-get returns what was set, and
   * the formatter returned by the setter is the one that holds the options.
   */
  method SetThenGet<Options>(f: BaseFormatter<Options>, first: Option<Options>, second: Option<Options>)
    returns (read: Option<Options>)
    modifies f
    ensures read == second
    ensures f.formatterOptions == second
  {
    var g := f.SetFormatterOptions(first);
    var h := g.SetFormatterOptions(second);
    read := h.GetFormatterOptions();
  }
}
