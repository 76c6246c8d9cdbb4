/** The exceptions of the core of ascii-art that are modelled, and a result type that
    carries them. */
module Outcomes {

  /** Python exceptions raised by the modelled code on some inputs. */
  datatype Error =
    | ZeroDivisionError  // a zero divisor: a pixel budget below an empty image's size, or video frame selection
    | ComplexScaleError  // TypeError: int() of the complex square root of a negative budget ratio
    | EmptyResizeError   // ValueError: PIL's resize to a size with a zero side
    | EmptyMaxError      // ValueError: max() of an empty list, for an empty canvas exported as an image

  /** Either a value or the exception that ended the call. */
  datatype Result<T> = Ok(value: T) | Err(error: Error)
}
