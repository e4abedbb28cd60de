// What the source's number type can count.
module Numbers {
  // Up to here every integer has a number of its own.
  const MAX_SAFE_INTEGER: int := 9007199254740991
}
