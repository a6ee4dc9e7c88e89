/** The Python exceptions the modelled code can raise, as values. */
module PyErrors {

  datatype PyError =
    | ValueError(message: string)
    | KeyError
    | IndexError
    | AttributeError
    | ZeroDivisionError(reason: string)
  {
    predicate IsValueError() { ValueError? }
  }
}
