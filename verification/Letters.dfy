/** Case mapping of the Latin letters, which is all the names the services compare consist of. */
module Letters {
  function Lower(c: char): char {
    if 'A' <= c <= 'Z' then c + (32 as char) else c
  }

  function Upper(c: char): char {
    if 'a' <= c <= 'z' then c - (32 as char) else c
  }

  function LowerCase(s: string): string {
    seq(|s|, i requires 0 <= i < |s| => Lower(s[i]))
  }

  function UpperCase(s: string): string {
    seq(|s|, i requires 0 <= i < |s| => Upper(s[i]))
  }
}
