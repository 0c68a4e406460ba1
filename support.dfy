/**
 * The support screen: the FAQ search and category filter, and the badge
 * classes for ticket status and priority.
 */
module Support {
  import opened Text
  import opened Seqs

  datatype FaqItem = FaqItem(id: nat, category: string, question: string, answer: string)

  /** `faqItems`, as the screen lists them. */
  const FaqItems: seq<FaqItem> := [
    FaqItem(1, "PIX", "Como fazer um PIX?",
            "Para fazer um PIX, vá até a aba PIX, digite a chave do destinatário, o valor e confirme a transferência com sua senha."),
    FaqItem(2, "PIX", "Qual o limite do PIX?",
            "O limite padrão do PIX é de R$ 1.000 durante o dia e R$ 1.000 durante a noite (20h às 6h)."),
    FaqItem(5, "Conta", "Como alterar minha senha?",
            "Vá em Configurações > Segurança > Alterar Senha. Digite sua senha atual e a nova senha duas vezes."),
    FaqItem(6, "Transferência", "Qual a diferença entre TED e DOC?",
            "TED é processada no mesmo dia útil, enquanto DOC é processada no próximo dia útil. TED tem taxa de até R$ 5,00.")
  ]

  /** The search term, lower-cased, occurs in the lower-cased question or answer. */
  predicate MatchesSearch(item: FaqItem, term: string) {
    Contains(Lower(item.question), Lower(term)) || Contains(Lower(item.answer), Lower(term))
  }

  /** No category chosen, or the item's own. */
  predicate MatchesCategory(item: FaqItem, category: string) {
    category == "" || item.category == category
  }

  /** `filteredFAQ`. */
  function FilteredFaq(items: seq<FaqItem>, term: string, category: string): (r: seq<FaqItem>)
    ensures forall x :: x in r <==> x in items && MatchesSearch(x, term) && MatchesCategory(x, category)
  {
    Filter(items, item => MatchesSearch(item, term) && MatchesCategory(item, category))
  }

  /** The filter keeps the list order, and with nothing typed or chosen shows every item. */
  lemma FilteredFaqSpec(items: seq<FaqItem>, term: string, category: string)
    ensures IsSubsequence(FilteredFaq(items, term, category), items)
    ensures term == "" && category == "" ==> FilteredFaq(items, term, category) == items
  {
    var keep := (item: FaqItem) => MatchesSearch(item, term) && MatchesCategory(item, category);
    FilterIsSubsequence(items, keep);
    if term == "" && category == "" {
      forall i | 0 <= i < |items| ensures keep(items[i]) {
        ContainsEmpty(Lower(items[i].question));
      }
      FilterKeepsAll(items, keep);
    }
  }

  /** Lower-casing twice is lower-casing once. */
  lemma LowerIdempotent(s: string)
    ensures Lower(Lower(s)) == Lower(s)
  {
    forall i | 0 <= i < |s| ensures LowerChar(LowerChar(s[i])) == LowerChar(s[i]) {
      LowerCharIdempotent(s[i]);
    }
  }

  lemma LowerCharIdempotent(c: char)
    ensures LowerChar(LowerChar(c)) == LowerChar(c)
  {
  }

  /** The search ignores the case of what is typed. */
  lemma SearchIgnoresCase(items: seq<FaqItem>, term: string, category: string)
    ensures FilteredFaq(items, Lower(term), category) == FilteredFaq(items, term, category)
  {
    LowerIdempotent(term);
    assert forall item :: MatchesSearch(item, Lower(term)) == MatchesSearch(item, term);
    FilterSameKeep(items, item => MatchesSearch(item, Lower(term)) && MatchesCategory(item, category),
                          item => MatchesSearch(item, term) && MatchesCategory(item, category));
  }

  lemma {:induction false} FilterSameKeep(items: seq<FaqItem>, p: FaqItem -> bool, q: FaqItem -> bool)
    requires forall x :: p(x) == q(x)
    ensures Filter(items, p) == Filter(items, q)
  {
    if items != [] {
      FilterSameKeep(items[1..], p, q);
    }
  }

  /** Choosing the PIX category with nothing typed shows the two PIX questions. */
  lemma PixCategoryShowsPixQuestions()
    ensures FilteredFaq(FaqItems, "", "PIX") == FaqItems[..2]
  {
    var keep := (item: FaqItem) => MatchesSearch(item, "") && MatchesCategory(item, "PIX");
    forall i | 0 <= i < |FaqItems| ensures MatchesSearch(FaqItems[i], "") {
      ContainsEmpty(Lower(FaqItems[i].question));
    }
    assert FaqItems[2..][1..] == FaqItems[3..];
    assert !keep(FaqItems[2]) && !keep(FaqItems[3]);
    assert Filter(FaqItems[3..], keep) == [];
    assert Filter(FaqItems[2..], keep) == [];
    assert FaqItems[1..][1..] == FaqItems[2..];
  }

  const Yellow: string := "bg-yellow-100 text-yellow-800 dark:bg-yellow-900 dark:text-yellow-200"
  const Green: string := "bg-green-100 text-green-800 dark:bg-green-900 dark:text-green-200"
  const Gray: string := "bg-gray-100 text-gray-800 dark:bg-gray-900 dark:text-gray-200"
  const Red: string := "bg-red-100 text-red-800 dark:bg-red-900 dark:text-red-200"
  const Blue: string := "bg-blue-100 text-blue-800 dark:bg-blue-900 dark:text-blue-200"

  /** `getStatusColor`. */
  function StatusColor(status: string): (r: string)
    ensures r == Yellow <==> status == "Em andamento"
    ensures r == Green <==> status == "Resolvido"
    ensures r == Gray <==> status != "Em andamento" && status != "Resolvido"
  {
    match status
    case "Em andamento" => Yellow
    case "Resolvido" => Green
    case _ => Gray
  }

  /** `getPriorityColor`: "Baixa" shares the default's gray. */
  function PriorityColor(priority: string): (r: string)
    ensures r == Red <==> priority == "Alta"
    ensures r == Blue <==> priority == "Média"
    ensures r == Gray <==> priority != "Alta" && priority != "Média"
  {
    match priority
    case "Alta" => Red
    case "Média" => Blue
    case "Baixa" => Gray
    case _ => Gray
  }
}
