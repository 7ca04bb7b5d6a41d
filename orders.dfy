/** The shared `Order` record (mytailor5/types.ts) and the JavaScript number
    that holds its price. */
module Orders {
  import opened Wrappers

  datatype Status = Pending | Completed

  /** Where the order came from: the gallery control records `online`, the
      camera control `offline`. */
  datatype Source = Online | Offline

  /** A JavaScript number as prices use it. Prices come from `parseFloat` and
      `Number`, which give NaN on text that is not a number, so NaN is kept
      explicit; finite values are exact reals (rounding is not modelled). */
  datatype JsNumber = Finite(value: real) | NaN {

    /** `a + b`: NaN absorbs everything. */
    function Plus(other: JsNumber): JsNumber {
      if this.Finite? && other.Finite? then Finite(this.value + other.value) else NaN
    }

    /** `n || 0`: NaN (and 0) become 0, every other number is kept. */
    function OrZero(): (r: JsNumber)
      ensures r.Finite?
      ensures this.Finite? ==> r == this
    {
      if this.NaN? then Finite(0.0) else this
    }

    /** `n > 0`, which is false for NaN. */
    predicate Positive() {
      this.Finite? && this.value > 0.0
    }
  }

  /** One customer alteration job. `completedAt`, `source` and `tags` are
      optional in the record; `None` stands for `undefined` or `null`. */
  datatype Order = Order(
    id: string,
    customerName: string,
    createdAt: int,
    completedAt: Option<int>,
    images: seq<string>,
    note: string,
    price: JsNumber,
    status: Status,
    source: Option<Source>,
    tags: Option<seq<string>>)

  /** The `zh-CN` renderings the application uses for a timestamp
      (`toLocaleDateString`, `toLocaleTimeString`) and the default text of a
      number; locale data is outside the model. */
  datatype Locale = Locale(date: int -> string, time: int -> string, number: JsNumber -> string)

  /** Milliseconds in a day, the divisor of every age computation. */
  const DayMs: int := 1000 * 60 * 60 * 24

  /** `(now - createdAt) / DayMs > days`, stated on integers: for whole
      milliseconds the quotient exceeds `days` exactly when the difference
      exceeds `days` whole days. */
  predicate OlderThanDays(now: int, createdAt: int, days: nat) {
    now - createdAt > days * DayMs
  }

  /** The integer test agrees with the source's division into days. */
  lemma OlderThanDaysIsDivision(now: int, createdAt: int, days: nat)
    ensures OlderThanDays(now, createdAt, days)
        <==> (now - createdAt) as real / DayMs as real > days as real
  {
    var diff := (now - createdAt) as real;
    var d := DayMs as real;
    assert diff / d * d == diff;
  }
}
