// The values of the properties of a home.
module StateValues {

  datatype StateValue = BoolValue(b: bool) | PercentageValue(p: real) | TextValue(s: string)
}
