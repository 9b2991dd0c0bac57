/** Instance filters and their text form (aws/adapter.go), with the functions of Go's
    strings package that they go through. */
module Filters {
  import opened Text
  import opened Stacks

  datatype Filter = Filter(name: string, values: seq<string>)

  const KUBERNETES_NODE_ROLE_TAG := "k8s.io/role/node"

  // Text.

  predicate IsSpace(c: char) {
    || c in {' ', '\t', '\n', '\r', '\U{B}', '\U{C}', '\U{85}', '\U{A0}', '\U{1680}', '\U{2028}', '\U{2029}', '\U{202F}',
             '\U{205F}', '\U{3000}'}
    || '\U{2000}' <= c <= '\U{200A}'
  }

  function TrimLeft(s: string): (r: string)
    ensures |r| <= |s| && s[|s| - |r|..] == r
  {
    if s != "" && IsSpace(s[0]) then TrimLeft(s[1..]) else s
  }

  function TrimRight(s: string): (r: string)
    ensures |r| <= |s| && s[..|r|] == r
  {
    if s != "" && IsSpace(s[|s| - 1]) then TrimRight(s[..|s| - 1]) else s
  }

  function TrimSpace(s: string): string {
    TrimRight(TrimLeft(s))
  }

  /** The characters before the first space. */
  function Word(s: string): (w: string)
    ensures |w| <= |s| && s[..|w|] == w
    ensures s != "" && !IsSpace(s[0]) ==> w != ""
  {
    if s == "" || IsSpace(s[0]) then "" else [s[0]] + Word(s[1..])
  }

  /** The words of s, which spaces separate. */
  function Fields(s: string): seq<string>
    decreases |s|
  {
    if s == "" then []
    else if IsSpace(s[0]) then Fields(s[1..])
    else [Word(s)] + Fields(s[|Word(s)|..])
  }

  // Printing and parsing.

  function Term(filter: Filter): string {
    filter.name + "=" + JoinStrings(filter.values, ",")
  }

  function PrintTerms(filters: seq<Filter>): string {
    if filters == [] then ""
    else PrintTerms(filters[..|filters| - 1]) + Term(filters[|filters| - 1]) + " "
  }

  method FiltersString(filters: seq<Filter>) returns (result: string)
    ensures result == TrimSpace(PrintTerms(filters))
  {
    result := "";
    for i := 0 to |filters|
      invariant result == PrintTerms(filters[..i])
    {
      assert filters[..i + 1][..i] == filters[..i];
      result := result + Term(filters[i]) + " ";
    }
    assert filters[..|filters|] == filters;
    result := TrimSpace(result);
  }

  function DefaultFilters(clusterID: string): seq<Filter> {
    [Filter("tag:" + CLUSTER_ID_TAG_PREFIX + clusterID, [RESOURCE_LIFECYCLE_OWNED]),
     Filter("tag-key", [KUBERNETES_NODE_ROLE_TAG])]
  }

  function ParseTerm(term: string): Option<Filter> {
    var parts := Split(term, '=');
    if |parts| != 2 then None else Some(Filter(parts[0], Split(parts[1], ',')))
  }

  function ParseTerms(terms: seq<string>): Option<seq<Filter>> {
    if terms == [] then Some([])
    else
      var front, last := ParseTerms(terms[..|terms| - 1]), ParseTerm(terms[|terms| - 1]);
      if front.Some? && last.Some? then Some(front.value + [last.value]) else None
  }

  /** A text that cannot be parsed is ignored in favour of the default. */
  function Parsed(customFilter: string, clusterID: string): seq<Filter> {
    var filters := ParseTerms(Fields(customFilter));
    if customFilter != "" && filters.Some? then filters.value else DefaultFilters(clusterID)
  }

  lemma {:induction false} MalformedTermsStayMalformed(terms: seq<string>, n: nat)
    requires n <= |terms| && ParseTerms(terms[..n]).None?
    ensures ParseTerms(terms).None?
  {
    if n == |terms| {
      assert terms[..n] == terms;
    } else {
      assert terms[..|terms| - 1][..n] == terms[..n];
      MalformedTermsStayMalformed(terms[..|terms| - 1], n);
    }
  }

  lemma {:induction false} SplitCounts(s: string, separator: char)
    ensures |Split(s, separator)| == multiset(s)[separator] + 1
  {
    if s != "" {
      SplitCounts(s[1..], separator);
      assert s == [s[0]] + s[1..];
      assert multiset(s)[separator] == multiset([s[0]])[separator] + multiset(s[1..])[separator];
    }
  }

  /** Without a text, or if some word of it has not exactly one equals sign, the nodes of the
      cluster are filtered for. */
  lemma MalformedFiltersGiveDefault(customFilter: string, clusterID: string)
    requires customFilter == "" || exists term :: term in Fields(customFilter) && multiset(term)['='] != 1
    ensures Parsed(customFilter, clusterID) ==
            [Filter("tag:kubernetes.io/cluster/" + clusterID, ["owned"]), Filter("tag-key", ["k8s.io/role/node"])]
  {
    DefaultFiltersText(clusterID);
    if customFilter != "" {
      hide Fields, Split, DefaultFilters;
      var terms := Fields(customFilter);
      var term :| term in terms && multiset(term)['='] != 1;
      var n :| 0 <= n < |terms| && terms[n] == term;
      SplitCounts(term, '=');
      assert terms[..n + 1][..n] == terms[..n] && terms[..n + 1][n] == term;
      MalformedTermsStayMalformed(terms, n + 1);
    }
  }

  lemma DefaultFiltersText(clusterID: string)
    ensures DefaultFilters(clusterID) ==
            [Filter("tag:kubernetes.io/cluster/" + clusterID, ["owned"]), Filter("tag-key", ["k8s.io/role/node"])]
  {
    assert "tag:" + CLUSTER_ID_TAG_PREFIX == "tag:kubernetes.io/cluster/";
  }

  method ParseFilters(customFilter: string, clusterID: string) returns (filters: seq<Filter>)
    ensures filters == Parsed(customFilter, clusterID)
  {
    if customFilter == "" {
      return DefaultFilters(clusterID);
    }
    hide Fields, Split;
    var terms := Fields(customFilter);
    filters := [];
    for i := 0 to |terms|
      invariant ParseTerms(terms[..i]) == Some(filters)
    {
      assert terms[..i + 1][..i] == terms[..i];
      var parts := Split(terms[i], '=');
      if |parts| != 2 {
        MalformedTermsStayMalformed(terms, i + 1);
        return DefaultFilters(clusterID);
      }
      filters := filters + [Filter(parts[0], Split(parts[1], ','))];
    }
    assert terms[..|terms|] == terms;
  }

  // The round trip.

  predicate HasNoSpace(s: string) {
    forall c :: c in s ==> !IsSpace(c)
  }

  /** A filter without separators or spaces where they would be read as such. */
  predicate Printable(filter: Filter) {
    && HasNoSpace(filter.name) && Lacks(filter.name, '=')
    && forall v :: v in filter.values ==> HasNoSpace(v) && Lacks(v, '=') && Lacks(v, ',')
  }

  /** The filter as it is read back: no values become one empty value. */
  function Reread(filter: Filter): Filter {
    if filter.values == [] then filter.(values := [""]) else filter
  }

  function RereadAll(filters: seq<Filter>): (r: seq<Filter>)
    ensures |r| == |filters| && forall i :: 0 <= i < |r| ==> r[i] == Reread(filters[i])
  {
    if filters == [] then []
    else RereadAll(filters[..|filters| - 1]) + [Reread(filters[|filters| - 1])]
  }

  lemma {:induction false} JoinedLacks(values: seq<string>)
    requires forall v :: v in values ==> HasNoSpace(v) && Lacks(v, '=')
    ensures HasNoSpace(JoinStrings(values, ",")) && Lacks(JoinStrings(values, ","), '=')
  {
    if values != [] {
      assert HasNoSpace(values[0]) && Lacks(values[0], '=');
      JoinedLacks(values[1..]);
    }
  }

  lemma TermRoundTrip(filter: Filter)
    requires Printable(filter)
    ensures ParseTerm(Term(filter)) == Some(Reread(filter))
    ensures Term(filter) != "" && HasNoSpace(Term(filter))
  {
    var joined := JoinStrings(filter.values, ",");
    JoinedLacks(filter.values);
    SplitFirst(filter.name, joined, '=');
    SplitWithout(joined, '=');
    if filter.values != [] {
      SplitJoined(filter.values);
    }
  }

  lemma {:induction false} WordOf(w: string, rest: string)
    requires HasNoSpace(w) && rest != "" && IsSpace(rest[0])
    ensures Word(w + rest) == w
  {
    if w == "" {
      assert w + rest == rest;
    } else {
      assert (w + rest)[1..] == w[1..] + rest;
      WordOf(w[1..], rest);
    }
  }

  lemma {:induction false} WordHasNoSpace(s: string)
    ensures HasNoSpace(Word(s))
    ensures |Word(s)| < |s| ==> IsSpace(s[|Word(s)|])
  {
    if s != "" && !IsSpace(s[0]) {
      WordHasNoSpace(s[1..]);
    }
  }

  lemma FirstField(s: string)
    requires s != ""
    ensures Fields(s) == if IsSpace(s[0]) then Fields(s[1..]) else [Word(s)] + Fields(s[|Word(s)|..])
  {
  }

  lemma {:induction false} FieldsAfterSpace(a: string, b: string)
    requires a == "" || IsSpace(a[|a| - 1])
    ensures Fields(a + b) == Fields(a) + Fields(b)
    decreases |a|
  {
    if a == "" {
      assert a + b == b;
      assert Fields(a) == [];
    } else if IsSpace(a[0]) {
      FirstField(a);
      FirstField(a + b);
      hide Fields, Word, IsSpace;
      assert (a + b)[1..] == a[1..] + b;
      FieldsAfterSpace(a[1..], b);
    } else {
      SameFirstWord(a, b);
      FirstField(a);
      FirstField(a + b);
      var w, rest := Word(a), a[|Word(a)|..];
      hide Fields, Word;
      FieldsAfterSpace(rest, b);
      Associative([w], Fields(rest), Fields(b));
    }
  }

  lemma Associative<T>(a: seq<T>, b: seq<T>, c: seq<T>)
    ensures a + b + c == a + (b + c)
  {
  }

  /** The first word stays the same when something is appended, if a ends with a space. */
  lemma SameFirstWord(a: string, b: string)
    requires a != "" && IsSpace(a[|a| - 1])
    ensures Word(a + b) == Word(a) && |Word(a)| < |a|
    ensures (a + b)[|Word(a)|..] == a[|Word(a)|..] + b
  {
    var w := Word(a);
    WordHasNoSpace(a);
    WordIsLongest(a + b, w);
  }

  lemma FieldsOfWord(w: string)
    requires w != "" && HasNoSpace(w)
    ensures Fields(w + " ") == [w]
  {
    WordOf(w, " ");
    assert (w + " ")[|w|..] == " ";
    assert Fields(" ") == [] by {
      assert " "[1..] == "";
    }
  }

  lemma {:induction false} FieldsIgnoreLastSpace(s: string)
    requires s != "" && IsSpace(s[|s| - 1])
    ensures Fields(s[..|s| - 1]) == Fields(s)
    decreases |s|
  {
    var front := s[..|s| - 1];
    if front == "" {
      assert s[1..] == "";
    } else if IsSpace(s[0]) {
      FirstField(s);
      FirstField(front);
      hide Fields, Word, IsSpace;
      assert front[1..] == s[1..][..|s| - 2];
      FieldsIgnoreLastSpace(s[1..]);
    } else {
      SameWord(s);
      FirstField(s);
      FirstField(front);
      var w := Word(s);
      hide Fields, Word, IsSpace;
      assert front[|w|..] == s[|w|..][..|s| - |w| - 1];
      FieldsIgnoreLastSpace(s[|w|..]);
    }
  }

  lemma SameWord(s: string)
    requires s != "" && IsSpace(s[|s| - 1])
    ensures Word(s[..|s| - 1]) == Word(s) && |Word(s)| < |s|
  {
    var w := Word(s);
    WordHasNoSpace(s);
    WordIsLongest(s[..|s| - 1], w);
  }

  lemma {:induction false} WordIsLongest(s: string, w: string)
    requires HasNoSpace(w) && |w| <= |s| && s[..|w|] == w && (|w| == |s| || IsSpace(s[|w|]))
    ensures Word(s) == w
  {
    if w != "" {
      assert s[0] == w[0] && w[0] in w;
      assert s[1..][..|w| - 1] == w[1..];
      WordIsLongest(s[1..], w[1..]);
      assert w == [w[0]] + w[1..];
    }
  }

  /** Trimming does not change the words. */
  lemma {:induction false} FieldsIgnoreTrimming(s: string)
    ensures Fields(TrimRight(s)) == Fields(s)
  {
    if s != "" && IsSpace(s[|s| - 1]) {
      FieldsIgnoreLastSpace(s);
      FieldsIgnoreTrimming(s[..|s| - 1]);
    }
  }

  lemma {:induction false} FieldsIgnoreTrimmingLeft(s: string)
    ensures Fields(TrimLeft(s)) == Fields(s)
  {
    if s != "" && IsSpace(s[0]) {
      FieldsIgnoreTrimmingLeft(s[1..]);
    }
  }

  lemma OneTermMore(s: string, term: string)
    requires (s == "" || IsSpace(s[|s| - 1])) && term != "" && HasNoSpace(term)
    ensures Fields(s + term + " ") == Fields(s) + [term]
  {
    FieldsAfterSpace(s, term + " ");
    FieldsOfWord(term);
    assert s + (term + " ") == s + term + " ";
  }

  lemma ParseOneMore(terms: seq<string>, term: string, filters: seq<Filter>, filter: Filter)
    requires ParseTerms(terms) == Some(filters) && ParseTerm(term) == Some(filter)
    ensures ParseTerms(terms + [term]) == Some(filters + [filter])
  {
    assert (terms + [term])[..|terms|] == terms;
  }

  lemma {:induction false} PrintedTermsParse(filters: seq<Filter>)
    requires forall f :: f in filters ==> Printable(f)
    ensures ParseTerms(Fields(PrintTerms(filters))) == Some(RereadAll(filters))
    ensures var s := PrintTerms(filters); s == "" || IsSpace(s[|s| - 1])
  {
    if filters != [] {
      var front, last := filters[..|filters| - 1], filters[|filters| - 1];
      PrintedTermsParse(front);
      TermRoundTrip(last);
      hide Fields, Term, Printable, ParseTerms, ParseTerm, Reread, HasNoSpace;
      var s := PrintTerms(front);
      OneTermMore(s, Term(last));
      ParseOneMore(Fields(s), Term(last), RereadAll(front), Reread(last));
    }
  }

  /** Parsing the printed text gives back the filters exactly if there are any and each of
      them has values. */
  lemma FiltersRoundTrip(filters: seq<Filter>, clusterID: string)
    requires forall f :: f in filters ==> Printable(f)
    ensures Parsed(TrimSpace(PrintTerms(filters)), clusterID) == filters <==>
      filters != [] && forall f :: f in filters ==> f.values != []
  {
    var text := TrimSpace(PrintTerms(filters));
    TrimmedTermsParse(filters);
    hide TrimSpace, PrintTerms, Fields, Printable, RereadAll;
    RereadChangesNothing(filters);
  }

  lemma RereadChangesNothing(filters: seq<Filter>)
    ensures RereadAll(filters) == filters <==> forall f :: f in filters ==> f.values != []
  {
    var r := RereadAll(filters);
    assert forall i :: 0 <= i < |r| ==> r[i] == Reread(filters[i]);
    hide RereadAll;
    forall i | 0 <= i < |filters| ensures r[i] == filters[i] <==> filters[i].values != [] {
    }
  }

  lemma TrimmedTermsParse(filters: seq<Filter>)
    requires forall f :: f in filters ==> Printable(f)
    ensures ParseTerms(Fields(TrimSpace(PrintTerms(filters)))) == Some(RereadAll(filters))
    ensures filters != [] ==> TrimSpace(PrintTerms(filters)) != ""
  {
    var s := PrintTerms(filters);
    PrintedTermsParse(filters);
    FieldsIgnoreTrimmingLeft(s);
    FieldsIgnoreTrimming(TrimLeft(s));
    assert Fields("") == [];
    hide PrintTerms, Fields, TrimLeft, TrimRight, Printable;
  }
}
