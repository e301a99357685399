/** The promotion carousel: an index into a fixed list of three promotions,
    advanced by a five-second timer and set directly by the indicator dots. */
module PromoSlider {

  import opened Arithmetic

  datatype Promo = Promo(id: nat, title: string, description: string, icon: string, color: string)

  const Promos: seq<Promo> := [
    Promo(1, "Скидка 20% на первый визит",
          "Добро пожаловать в BAZA! Получите скидку 20% на любую услугу при первом посещении",
          "percent", "from-amber-600 to-amber-800"),
    Promo(2, "Комбо: Стрижка + Бритьё",
          "Классическое комбо со скидкой 15%. Идеальный подарок для себя или друга",
          "gift", "from-red-800 to-red-950"),
    Promo(3, "VIP Уход за бородой",
          "Премиальный уход с горячими полотенцами и массажем лица",
          "sparkles", "from-amber-700 to-amber-900")
  ]

  /** (prev + 1) % length: the next slide, wrapping from the last to the first. */
  function Advance(current: nat, length: nat): (next: nat)
    requires length > 0
    ensures next < length
    ensures current + 1 < length ==> next == current + 1
    ensures current + 1 == length ==> next == 0
  {
    (current + 1) % length
  }

  /** The slide shown after k timer ticks with no click in between. */
  function AfterTicks(start: nat, k: nat, length: nat): nat
    requires length > 0
  {
    if k == 0 then start else Advance(AfterTicks(start, k - 1, length), length)
  }

  /** From an in-range slide, k ticks move k places round the list. */
  lemma {:induction false} AfterTicksWraps(start: nat, k: nat, length: nat)
    requires length > 0 && start < length
    ensures AfterTicks(start, k, length) == (start + k) % length
  {
    if k > 0 {
      AfterTicksWraps(start, k - 1, length);
      ModSuccessor(start + k - 1, length);
    }
  }

  /** Starting from the first slide, k ticks show slide k mod 3. */
  lemma {:induction false} TicksFromFirstSlide(k: nat)
    ensures AfterTicks(0, k, |Promos|) == k % 3
  {
    AfterTicksWraps(0, k, |Promos|);
  }

  class PromoSlider {
    var currentSlide: nat

    predicate Valid()
      reads this
    {
      currentSlide < |Promos|
    }

    constructor ()
      ensures Valid() && currentSlide == 0
    {
      currentSlide := 0;
    }

    /** The promotion on screen. */
    function Current(): (p: Promo)
      reads this
      requires Valid()
      ensures p in Promos
    {
      Promos[currentSlide]
    }

    /** One tick of the five-second timer. */
    method AutoAdvance()
      modifies this
      ensures Valid()
      ensures currentSlide == Advance(old(currentSlide), |Promos|)
    {
      currentSlide := (currentSlide + 1) % |Promos|;
    }

    /** A click on indicator dot index; the dots are drawn one per promotion. */
    method Select(index: nat)
      requires index < |Promos|
      modifies this
      ensures Valid() && currentSlide == index
    {
      currentSlide := index;
    }
  }
}
