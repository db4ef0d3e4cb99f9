/**
 * Values the Java runtime supplies to the modelled classes: nullable
 * references, calls that either return or throw, and the exception types
 * the core raises or lets through.
 */
module Lang {

  /** A bean name (always canonical: alias resolution is the identity here). */
  type Name = string

  /** A reference that may be `null`. */
  datatype Option<+T> = None | Some(value: T)

  /** The exception types thrown or propagated by the modelled code. */
  datatype Exception =
    | IllegalStateException
    | IllegalArgumentException
    | BeanCreationException
    | BeanCurrentlyInCreationException(beanName: Name)
    | BeanCreationNotAllowedException(beanName: Name)
    | AopConfigException
    | RuntimeException

  /** A call that returns a value or throws. */
  datatype Result<+T> = Ok(value: T) | Err(error: Exception)

  /** A `void` call that returns normally or throws. */
  datatype Outcome = Pass | Fail(error: Exception)
}
