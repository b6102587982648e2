/** Option letters of the exam page (prova/script.js): the letter shown beside
    each option, and the letter a digit key selects. */
module Keys {
  import opened Exam

  /** The letter shown for the option at index `i`: `String.fromCharCode(65 + i)`. */
  function OptionLetter(i: nat): (c: char)
    requires i < 26
    ensures 'A' <= c <= 'Z'
    ensures c as int - 'A' as int == i
  {
    (65 + i) as char
  }

  /** The letter a key press selects: keys "1" to "5" (the whole key name, one
      character) give `String.fromCharCode(65 + Number(key) - 1)`; any other key
      selects nothing. */
  function DigitLetter(key: string): (r: Option<char>)
    ensures r.Some? <==> |key| == 1 && '1' <= key[0] <= '5'
    ensures r.Some? ==> 'A' <= r.value <= 'E' && r.value == OptionLetter(key[0] as int - '1' as int)
  {
    if |key| == 1 && '1' <= key[0] <= '5' then
      var idx := (key[0] as int - '0' as int) - 1;
      Some((65 + idx) as char)
    else None
  }

  /** Each of the first five options is selected by exactly one digit key. */
  lemma DigitSelectsOption(i: nat)
    requires i < 5
    ensures DigitLetter([('1' as int + i) as char]) == Some(OptionLetter(i))
    ensures forall key :: DigitLetter(key) == Some(OptionLetter(i)) ==> key == [('1' as int + i) as char]
  {
  }
}
