/** What the C library takes a sequence of characters for. */
module CStrings {

  const NUL: char := '\0'

  /** A string ends at the first NUL. */
  function UpToNul(s: string): (t: string)
    ensures t <= s && NUL !in t
    ensures if NUL in s then |t| < |s| && s[|t|] == NUL else t == s
  {
    if s == "" || s[0] == NUL then "" else [s[0]] + UpToNul(s[1..])
  }
}
