/** The canned question responder behind ask_ai: the question is
    lower-cased, tested against an ordered list of keyword groups, and the
    first group that matches picks a fixed sentence with the product name
    spliced in; no match gets the hotline sentence. */
module Responder {
  import opened Strings

  const DefaultName := "Sản phẩm"

  /** The keyword groups, in the order they are tried, and the fallback. */
  datatype Topic = Price | Expiry | Storage | Quality | Authenticity | Other

  /** `productName || "Sản phẩm"`. */
  function DisplayName(productName: string): (name: string)
    ensures name != ""
    ensures productName != "" ==> name == productName
    ensures productName == "" ==> name == DefaultName
  {
    if productName == "" then DefaultName else productName
  }

  /** The keyword tests of each group, on an already lower-cased question. */
  predicate Asks(q: string, t: Topic) {
    match t
    case Price => Contains(q, "giá")
    case Expiry => Contains(q, "hạn sử dụng") || Contains(q, "hsd") || Contains(q, "date")
    case Storage => Contains(q, "bảo quản")
    case Quality => Contains(q, "thành phần") || Contains(q, "chất lượng")
    case Authenticity => Contains(q, "chính hãng") || Contains(q, "thật giả")
    case Other => true
  }

  /** The first group, in source order, whose test holds. */
  function TopicOf(q: string): (t: Topic)
    ensures Asks(q, t)
    ensures forall u :: Earlier(u, t) ==> !Asks(q, u)
  {
    if Asks(q, Price) then Price
    else if Asks(q, Expiry) then Expiry
    else if Asks(q, Storage) then Storage
    else if Asks(q, Quality) then Quality
    else if Asks(q, Authenticity) then Authenticity
    else Other
  }

  /** Group `u` is tried before group `t`. */
  predicate Earlier(u: Topic, t: Topic) {
    Rank(u) < Rank(t)
  }

  function Rank(t: Topic): nat {
    match t
    case Price => 0
    case Expiry => 1
    case Storage => 2
    case Quality => 3
    case Authenticity => 4
    case Other => 5
  }

  /** The text of each answer before the product name, up to its bold mark. */
  function Before(t: Topic): string {
    match t
    case Price => "Giá bán lẻ tham khảo của **"
    case Expiry => "Hạn sử dụng của **"
    case Storage => "Bạn nên bảo quản **"
    case Quality => "**"
    case Authenticity => "Bạn có thể hoàn toàn yên tâm. Đây là sản phẩm **"
    case Other => "Cảm ơn bạn đã quan tâm đến **"
  }

  /** The text of each answer after the product name, from its bold mark. */
  function After(t: Topic): string {
    match t
    case Price => "** dao động tùy theo đại lý và chương trình khuyến mãi hiện tại."
    case Expiry => "** được in rõ dưới đáy lon và đã được lưu trữ bất biến trên Blockchain để đảm bảo an toàn."
    case Storage => "** ở nơi khô ráo, thoáng mát, tránh ánh nắng trực tiếp. Sau khi mở nắp nên dùng hết trong ngày."
    case Quality => "** được làm từ 100% sữa tươi nguyên chất và các nguyên liệu tự nhiên, đạt chuẩn ISO quốc tế."
    case Authenticity => "** CHÍNH HÃNG đã được xác thực qua hệ thống Blockchain của chúng tôi."
    case Other => "**. Nếu cần thêm thông tin chi tiết, vui lòng liên hệ hotline 1900 1500."
  }

  /** The answer of group `t` for a product called `name`. */
  function Template(t: Topic, name: string): string {
    Before(t) + name + After(t)
  }

  /** `getAnswer(productName, question)`; a missing product name is "". */
  function Answer(productName: string, question: string): (r: string)
    ensures Contains(r, DisplayName(productName))
  {
    var name := DisplayName(productName);
    var t := TopicOf(Lower(question));
    TemplateNames(t, name);
    Template(t, name)
  }

  /** Every answer shows the product name. */
  lemma TemplateNames(t: Topic, name: string)
    ensures Contains(Template(t, name), name)
  {
    ContainsInfix(Before(t), name, After(t));
  }

  /** The group chosen is the first whose test holds: any group whose test
      holds and that comes after no other matching group is the one chosen. */
  lemma {:induction false} FirstMatchWins(productName: string, question: string, t: Topic)
    requires Asks(Lower(question), t)
    requires forall u :: Earlier(u, t) ==> !Asks(Lower(question), u)
    ensures Answer(productName, question) == Template(t, DisplayName(productName))
  {
    var q := Lower(question);
    var chosen := TopicOf(q);
    assert !Earlier(chosen, t);
    assert !Earlier(t, chosen);
    assert chosen == t;
  }

  /** A question naming a price gets the price answer, whatever else it asks. */
  lemma PriceFirst(productName: string, question: string)
    requires Contains(Lower(question), "giá")
    ensures Answer(productName, question) == Template(Price, DisplayName(productName))
  {
  }

  /** Any one of the three expiry keywords picks the expiry answer, unless
      the question also names a price. */
  lemma ExpiryKeywords(productName: string, question: string)
    requires !Contains(Lower(question), "giá")
    requires Contains(Lower(question), "hạn sử dụng") || Contains(Lower(question), "hsd")
             || Contains(Lower(question), "date")
    ensures Answer(productName, question) == Template(Expiry, DisplayName(productName))
  {
  }

  /** The hotline answer is given exactly when no keyword group matches. */
  lemma FallbackIffNoKeyword(question: string)
    ensures TopicOf(Lower(question)) == Other <==>
            forall t :: t != Other ==> !Asks(Lower(question), t)
  {
  }

  /** Letter case does not matter: a question and its lower-cased form get
      the same answer. */
  lemma IgnoresCase(productName: string, question: string)
    ensures Answer(productName, question) == Answer(productName, Lower(question))
  {
    LowerIdempotent(question);
  }

  /** A string of lower-case letters is its own lower-case form. */
  lemma LowerFixed(s: string)
    requires forall i :: 0 <= i < |s| ==> LowerChar(s[i]) == s[i]
    ensures Lower(s) == s
  {
  }

  /** A string that lacks one of the letters of `pat` cannot contain `pat`. */
  lemma MissingLetter(s: string, pat: string, k: nat)
    requires k < |pat| && pat[k] !in s
    ensures !Contains(s, pat)
  {
    ContainsIff(s, pat);
  }

  /** A question that opens with "GIÁ" in capitals gets the price answer
      for "MilkCo", whatever follows. */
  lemma PriceExample(rest: string)
    ensures Answer("MilkCo", "GIÁ" + rest) == Template(Price, "MilkCo")
  {
    var q := "GIÁ" + rest;
    LowerAppend("GIÁ", rest);
    assert Lower("GIÁ") == "giá";
    ContainsInfix([], "giá", Lower(rest));
    assert [] + "giá" + Lower(rest) == Lower(q);
    PriceFirst("MilkCo", q);
  }

  /** Lower-casing works piece by piece. */
  lemma LowerAppend(a: string, b: string)
    ensures Lower(a + b) == Lower(a) + Lower(b)
  {
    assert forall i :: 0 <= i < |a + b| ==> Lower(a + b)[i] == (Lower(a) + Lower(b))[i];
  }

  /** A greeting matches no keyword and gets the hotline answer. */
  lemma FallbackExample(q: string)
    requires q == "xin chào"
    ensures Answer("MilkCo", q) == Template(Other, "MilkCo")
  {
    GreetingHasNoKeyword(q);
    FirstMatchWins("MilkCo", q, Other);
  }

  lemma GreetingHasNoKeyword(q: string)
    requires q == "xin chào"
    ensures forall t :: t != Other ==> !Asks(Lower(q), t)
  {
    LowerFixed(q);
    OnlyGreetingLetters(Lower(q));
  }

  /** No keyword fits in a text made only of the letters of "xin chào". */
  lemma OnlyGreetingLetters(s: string)
    requires forall c :: c in s ==> c in "xin chào"
    ensures forall t :: t != Other ==> !Asks(s, t)
  {
    MissingLetter(s, "giá", 0);
    MissingLetter(s, "hạn sử dụng", 1);
    MissingLetter(s, "hsd", 1);
    MissingLetter(s, "date", 0);
    MissingLetter(s, "bảo quản", 0);
    MissingLetter(s, "thành phần", 0);
    MissingLetter(s, "chất lượng", 2);
    MissingLetter(s, "chính hãng", 2);
    MissingLetter(s, "thật giả", 0);
  }
}
