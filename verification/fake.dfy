/**
 The fake-data provider as an explicit oracle. The k-th call the generator
 makes reads position k: `draws(k)` is the number and `texts(k)` the text
 that call returns. Every property proved about the generator holds for every
 oracle, so nothing here assumes a distribution.
 */
module Fake {
  import opened Schema

  datatype Oracle = Oracle(draws: nat -> nat, texts: nat -> string) {

    /** A name, e-mail, password, phrase, sentence or word. */
    function Text(p: nat): string {
      texts(p)
    }

    /** random_int(min=lo, max=hi): both bounds inclusive. */
    function Int(p: nat, lo: int, hi: int): (r: int)
      requires lo <= hi
      ensures lo <= r <= hi
    {
      lo + draws(p) % (hi - lo + 1)
    }

    /** boolean(). */
    function Bool(p: nat): bool {
      draws(p) % 2 == 1
    }

    /** random_element(xs), with replacement; the provider raises on an empty pool. */
    function Element<T>(p: nat, xs: seq<T>): (x: T)
      requires |xs| > 0
      ensures x in xs
    {
      xs[draws(p) % |xs|]
    }

    /** date_time_this_year(). */
    function Moment(p: nat): Timestamp {
      draws(p)
    }
  }

  /** An oracle whose every number is 0. */
  const Zeros: Oracle := Oracle(_ => 0, _ => "")

  /** An oracle whose every number is 1. */
  const Ones: Oracle := Oracle(_ => 1, _ => "")
}
