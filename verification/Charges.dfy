/** src/swingdash/domain/risk/charges.py: the cost of buying a delivery trade and selling it again. */
module RoundTripCharges {

  const CRORE := 10000000.0

  datatype ChargeSchedule = ChargeSchedule(
    brokeragePerOrder: real,
    sttRate: real,
    exchangeRate: real,
    sebiPerCrore: real,
    stampRateBuy: real,
    gstRate: real,
    gstOnSebi: bool,
    dpPerSell: real,
    dpIncludesGst: bool)

  /** Every rate is a charge, never a rebate. */
  predicate NoRebates(s: ChargeSchedule) {
    && 0.0 <= s.brokeragePerOrder && 0.0 <= s.sttRate && 0.0 <= s.exchangeRate && 0.0 <= s.sebiPerCrore
    && 0.0 <= s.stampRateBuy && 0.0 <= s.gstRate && 0.0 <= s.dpPerSell
  }

  datatype Broker = Upstox | Dhan | Zerodha

  /** The published delivery rates. */
  function ScheduleOf(broker: Broker): (s: ChargeSchedule)
    ensures NoRebates(s)
  {
    match broker
    case Upstox => ChargeSchedule(20.0, 0.001, 0.0000307, 10.0, 0.00015, 0.18, false, 20.0, false)
    case Dhan => ChargeSchedule(0.0, 0.001, 0.000030699, 10.0, 0.00015, 0.18, true, 12.5, false)
    case Zerodha => ChargeSchedule(0.0, 0.001, 0.0000307, 10.0, 0.00015, 0.18, true, 15.34, true)
  }

  datatype Charges = Charges(buy: real, sell: real)

  function Total(c: Charges): real {
    c.buy + c.sell
  }

  function Side(s: ChargeSchedule, value: real, buying: bool): real {
    var exchange := s.exchangeRate * value;
    var sebi := s.sebiPerCrore * value / CRORE;
    var stamp := if buying then s.stampRateBuy * value else 0.0;
    var dp := if buying then 0.0 else s.dpPerSell;
    var taxable :=
      s.brokeragePerOrder + exchange + (if s.gstOnSebi then sebi else 0.0) + (if s.dpIncludesGst then 0.0 else dp);
    s.brokeragePerOrder + s.sttRate * value + exchange + sebi + stamp + dp + s.gstRate * taxable
  }

  function RoundTrip(s: ChargeSchedule, quantity: int, entry: real, exit: real): Charges {
    if quantity <= 0 then Charges(0.0, 0.0)
    else Charges(Side(s, quantity as real * entry, true), Side(s, quantity as real * exit, false))
  }

  // --- a fixed part, paid from the first share on, and a part per rupee -----------------------------

  /** What an order costs whatever its value. */
  function Fixed(s: ChargeSchedule, buying: bool): real {
    var dp := if buying then 0.0 else s.dpPerSell;
    s.brokeragePerOrder + dp + s.gstRate * (s.brokeragePerOrder + if s.dpIncludesGst then 0.0 else dp)
  }

  /** What each rupee traded adds. */
  function Rate(s: ChargeSchedule, buying: bool): real {
    var sebi := s.sebiPerCrore / CRORE;
    s.sttRate + s.exchangeRate + sebi + (if buying then s.stampRateBuy else 0.0)
    + s.gstRate * (s.exchangeRate + if s.gstOnSebi then sebi else 0.0)
  }

  lemma Product(a: real, b: real)
    requires 0.0 <= a && 0.0 <= b
    ensures 0.0 <= a * b
  {}

  lemma PartsNonNegative(s: ChargeSchedule, buying: bool)
    requires NoRebates(s)
    ensures 0.0 <= Fixed(s, buying) && 0.0 <= Rate(s, buying)
  {
    var dp := if buying then 0.0 else s.dpPerSell;
    Product(s.gstRate, s.brokeragePerOrder + if s.dpIncludesGst then 0.0 else dp);
    Product(s.gstRate, s.exchangeRate + if s.gstOnSebi then s.sebiPerCrore / CRORE else 0.0);
  }

  lemma Distributes(a: real, x: real, y: real, z: real)
    ensures a * (x + y + z) == a * x + a * y + a * z
  {}

  lemma SideIsAffine(s: ChargeSchedule, value: real, buying: bool)
    ensures Side(s, value, buying) == Fixed(s, buying) + Rate(s, buying) * value
  {
    var dp := if buying then 0.0 else s.dpPerSell;
    var sebi := s.sebiPerCrore / CRORE;
    var taxedDp := if s.dpIncludesGst then 0.0 else dp;
    var taxedSebi := if s.gstOnSebi then sebi else 0.0;
    var taxedRate := s.exchangeRate + taxedSebi;
    var stamp := if buying then s.stampRateBuy else 0.0;
    assert s.sebiPerCrore * value / CRORE == sebi * value;
    assert s.brokeragePerOrder + s.exchangeRate * value + taxedSebi * value + taxedDp
        == (s.brokeragePerOrder + taxedDp) + taxedRate * value;
    Distributes(s.gstRate, s.brokeragePerOrder + taxedDp, taxedRate * value, 0.0);
    assert s.gstRate * (taxedRate * value) == (s.gstRate * taxedRate) * value;
  }

  /** What every order costs on top of its rate, from the first share on. */
  function Jump(s: ChargeSchedule): real {
    Fixed(s, true) + Fixed(s, false)
  }

  function PerShare(s: ChargeSchedule, entry: real, exit: real): real {
    Rate(s, true) * entry + Rate(s, false) * exit
  }

  /** A fixed sum once anything is traded, and the same again for every share. */
  function Cost(jump: real, each: real, quantity: int): real {
    if quantity <= 0 then 0.0 else jump + quantity as real * each
  }

  lemma Reorder(rate: real, q: real, price: real)
    ensures rate * (q * price) == q * (rate * price)
  {}

  /** Both orders together, share by share. */
  lemma BothSides(buy: real, sell: real, fixedBuy: real, fixedSell: real, buying: real, selling: real, q: real,
      entry: real, exit: real)
    requires buy == fixedBuy + buying * (q * entry) && sell == fixedSell + selling * (q * exit)
    ensures buy + sell == (fixedBuy + fixedSell) + q * (buying * entry + selling * exit)
  {
    Reorder(buying, q, entry);
    Reorder(selling, q, exit);
    Distributes(q, buying * entry, selling * exit, 0.0);
  }

  lemma RoundTripIsAffine(s: ChargeSchedule, quantity: int, entry: real, exit: real)
    ensures Total(RoundTrip(s, quantity, entry, exit)) == Cost(Jump(s), PerShare(s, entry, exit), quantity)
  {
    if quantity > 0 {
      var q, buying, selling := quantity as real, Rate(s, true), Rate(s, false);
      var buy, sell := Side(s, q * entry, true), Side(s, q * exit, false);
      SideIsAffine(s, q * entry, true);
      SideIsAffine(s, q * exit, false);
      BothSides(buy, sell, Fixed(s, true), Fixed(s, false), buying, selling, q, entry, exit);
    }
  }

  lemma CostMonotone(jump: real, each: real, a: int, b: int)
    requires 0.0 <= jump && 0.0 <= each && a <= b
    ensures 0.0 <= Cost(jump, each, a) <= Cost(jump, each, b)
  {
    if a > 0 {
      Product(a as real, each);
      Product((b - a) as real, each);
      assert b as real * each == a as real * each + (b - a) as real * each;
    } else if b > 0 {
      Product(b as real, each);
    }
  }

  lemma PerShareNonNegative(s: ChargeSchedule, entry: real, exit: real)
    requires NoRebates(s) && 0.0 <= entry && 0.0 <= exit
    ensures 0.0 <= Jump(s) && 0.0 <= PerShare(s, entry, exit)
  {
    PartsNonNegative(s, true);
    PartsNonNegative(s, false);
    Product(Rate(s, true), entry);
    Product(Rate(s, false), exit);
  }

  /** More shares never cost less, the jump at the first one included. */
  lemma RoundTripMonotone(s: ChargeSchedule, a: int, b: int, entry: real, exit: real)
    requires NoRebates(s) && a <= b && 0.0 <= entry && 0.0 <= exit
    ensures 0.0 <= Total(RoundTrip(s, a, entry, exit)) <= Total(RoundTrip(s, b, entry, exit))
  {
    PerShareNonNegative(s, entry, exit);
    CostMonotone(Jump(s), PerShare(s, entry, exit), a, b);
    RoundTripIsAffine(s, a, entry, exit);
    RoundTripIsAffine(s, b, entry, exit);
  }
}
