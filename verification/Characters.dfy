/** Character classes and stripping, as Python's `str` has them. */
module Characters {

  /** `str.isspace` for one character. */
  predicate IsSpace(c: char) {
    var n := c as int;
    || 9 <= n <= 13 || 28 <= n <= 32 || n == 0x85 || n == 0xA0 || n == 0x1680 || 0x2000 <= n <= 0x200A
    || n == 0x2028 || n == 0x2029 || n == 0x202F || n == 0x205F || n == 0x3000
  }

  /** Unicode category Cc. */
  predicate IsControl(c: char) {
    (c as int) < 32 || 127 <= (c as int) < 160
  }

  /** A control character that texts may not hold. */
  predicate IsForbiddenControl(c: char) {
    IsControl(c) && c != '\n' && c != '\t'
  }

  function LStrip(s: string): (r: string)
    ensures r == "" || !IsSpace(r[0])
  {
    if s != "" && IsSpace(s[0]) then LStrip(s[1..]) else s
  }

  function RStrip(s: string): (r: string)
    ensures r <= s && (r == "" || !IsSpace(r[|r| - 1]))
  {
    if s != "" && IsSpace(s[|s| - 1]) then RStrip(s[..|s| - 1]) else s
  }
}
