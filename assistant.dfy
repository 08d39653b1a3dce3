/**
 * The mock assistant: the canned answer of the first keyword-table entry the
 * lowercased message mentions, or a fallback. The table's keyword lists and
 * its answers are kept as two parallel tables, entry by entry.
 */
module Assistant {
  import opened Wrappers
  import opened Seqs
  import opened Text

  /** The keyword lists of the reply table, in the order they are tried. */
  const Keywords: seq<seq<string>> := [
    ["payment", "pay", "invoice", "billing", "cost", "price"],
    ["contract", "nda", "agreement", "legal", "terms"],
    ["deadline", "due", "schedule", "timeline", "when"],
    ["budget", "finance", "financial", "report", "q4", "revenue"],
    ["design", "figma", "ui", "ux", "system"],
    ["meeting", "notes", "agenda", "minutes"],
    ["search", "find", "where", "locate", "look"],
    ["help", "how", "what", "can you"],
    ["hello", "hi", "hey", "greetings"],
    ["delete", "remove", "trash"],
    ["create", "new", "add", "folder", "file"]
  ]

  /** The answer of entry `k` of the reply table. */
  function Answer(k: nat): string
    requires k < |Keywords|
  {
    if k == 0 then
      "The payment terms are **Net 30**, due within 30 days of invoice date. A **1.5% monthly late fee** applies after the due date."
    else if k == 1 then
      "The NDA contract with Acme Corp covers confidentiality of proprietary data. It was signed on Feb 5 and is valid for 2 years. Key clauses include non-disclosure, non-compete (12 months), and IP assignment."
    else if k == 2 then
      "Based on the project brief, the current deadline is **March 15, 2026**. The next milestone review is scheduled for March 1."
    else if k == 3 then
      "The Q4 financial report shows total revenue of **$2.4M** (+12% QoQ). Operating expenses were $1.8M. Net margin improved to 25%."
    else if k == 4 then
      "The design system v2 includes updated color tokens, typography scale, spacing guidelines, and 48 reusable components. It's available in the Projects folder."
    else if k == 5 then
      "The January meeting notes cover: Q1 roadmap planning, hiring updates (3 new engineers), and the product launch timeline for April."
    else if k == 6 then
      "You can use the search bar at the top of the Finder window to filter files by name or tag. Try searching for keywords like \"invoice\" or \"project\"."
    else if k == 7 then
      "I can help you understand your files and documents. Try asking about:\n- Payment terms in contracts\n- Financial report summaries\n- Project deadlines\n- Meeting notes\n- Design system details"
    else if k == 8 then
      "Hello! I'm your AI file assistant. Ask me about any document in your file system \U{2014} contracts, invoices, reports, or meeting notes."
    else if k == 9 then
      "To delete a file, right-click it and select **Delete** from the context menu. Deleted items are removed permanently in this version."
    else
      "To create a new file or folder, right-click in the empty area of the file list and choose **New Folder** or **New File**. You can also use the keyboard shortcut **\U{21E7}\U{2318}N** for a new folder."
  }

  const Fallback: string :=
    "I'm not sure about that. Try asking about payment terms, contracts, financial reports, project deadlines, or meeting notes."

  /** `entry.keywords.some(kw => lower.includes(kw))`: some keyword occurs in the lowercased message. */
  predicate Hits(keywords: seq<string>, lower: string)
  {
    exists i :: 0 <= i < |keywords| && Contains(lower, keywords[i])
  }

  /**
   * The entry whose answer the message gets: the first one, in table order,
   * with a keyword inside the lowercased message; none when no entry has one.
   */
  function Choice(message: string): (r: Option<nat>)
    ensures r.Some? ==> r.value < |Keywords| && Hits(Keywords[r.value], Lower(message))
    ensures r.Some? ==> forall j :: 0 <= j < r.value ==> !Hits(Keywords[j], Lower(message))
    ensures r.None? <==> forall k :: 0 <= k < |Keywords| ==> !Hits(Keywords[k], Lower(message))
  {
    var lower := Lower(message);
    FindIndex(Keywords, (keywords: seq<string>) => Hits(keywords, lower))
  }

  /** The reply for a choice: that entry's answer, or the fallback. */
  function Reply(choice: Option<nat>): string
    requires choice.None? || choice.value < |Keywords|
  {
    match choice
    case Some(k) => Answer(k)
    case None => Fallback
  }

  /** `findResponse`: tries the entries in order and returns at the first one with a keyword in the message. */
  method FindResponse(message: string) returns (r: string)
    ensures r == Reply(Choice(message))
  {
    var lower := Lower(message);
    var k := 0;
    while k < |Keywords|
      invariant 0 <= k <= |Keywords|
      invariant forall j :: 0 <= j < k ==> !Hits(Keywords[j], lower)
    {
      if Hits(Keywords[k], lower) {
        FirstHitIsChoice(message, k);
        return Reply(Some(k));
      }
      k := k + 1;
    }
    return Reply(None);
  }

  /** An entry that hits while no earlier entry does is the choice. */
  lemma FirstHitIsChoice(message: string, k: nat)
    requires k < |Keywords| && Hits(Keywords[k], Lower(message))
    requires forall j :: 0 <= j < k ==> !Hits(Keywords[j], Lower(message))
    ensures Choice(message) == Some(k)
  {
  }

  /** The choice does not depend on the message's letter case. */
  lemma ChoiceIgnoresCase(message: string)
    ensures Choice(Lower(message)) == Choice(message)
  {
    LowerIdempotent(message);
  }

  /** Keywords match as substrings, not words: any mention of "invoice" picks the payment entry, whatever else is said. */
  lemma InvoiceGetsPaymentAnswer(message: string)
    requires Contains(Lower(message), "invoice")
    ensures Choice(message) == Some(0)
  {
    assert Keywords[0][2] == "invoice";
    assert Hits(Keywords[0], Lower(message));
  }

  /** A keyword in capitals still counts. */
  lemma UpperCaseKeywordCounts(message: string)
    requires Contains(message, "INVOICE")
    ensures Choice(message) == Some(0)
  {
    ContainsLower(message, "INVOICE");
    LowerInvoice();
    InvoiceGetsPaymentAnswer(message);
  }

  lemma LowerInvoice()
    ensures Lower("INVOICE") == "invoice"
  {
    var u := "INVOICE";
    assert Lower(u)[0] == 'i' && Lower(u)[1] == 'n' && Lower(u)[2] == 'v' && Lower(u)[3] == 'o';
    assert Lower(u)[4] == 'i' && Lower(u)[5] == 'c' && Lower(u)[6] == 'e';
  }
}
