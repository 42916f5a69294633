/** The option records of the descriptors and their default values. The
    flags enum they refer to is the one in Access: the copy of the enum kept
    next to the option records has the same five values. */
module Options {
  import A = Access

  datatype ParameterOptions = ParameterOptions(isDynamic: bool)

  datatype PropertyOptions = PropertyOptions(isDynamic: bool)

  datatype FieldOptions = FieldOptions(isDynamic: bool, securityAccess: A.Mask, forceNumericDouble: bool)

  datatype MethodOptions = MethodOptions(
    returnsDynamic: bool,
    securityAccess: A.Mask,
    forceNumericDouble: bool,
    defaultParameterOptions: ParameterOptions)

  const DefaultParameterOptions := ParameterOptions(false)
  const DefaultPropertyOptions := PropertyOptions(false)
  const DefaultFieldOptions := FieldOptions(false, A.AllowAll, false)
  /** ReturnsDynamic has no initialiser and starts as `false`. */
  const DefaultMethodOptions := MethodOptions(false, A.AllowAll, false, DefaultParameterOptions)
}
