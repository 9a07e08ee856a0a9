/**
 * The experiment loop: one query pair compared once per parameter collection,
 * the results collected in input order.
 */
module Experiments {
  import opened DataModel
  import opened ResultSetComparison

  /** The comparisons of one experiment, one per parameter collection. */
  datatype ExperimentResult = ExperimentResult(queryComparisons: seq<QueryComparison>)

  /** The input built for one parameter collection: the same two queries, its own parameters. */
  function InputFor(query1: string, query2: string, collection: ComparisonParameterCollection): ComparisonInput {
    ComparisonInput(query1, query2, collection.parameters)
  }

  /** Specification of an experiment: the comparator mapped over the collections, in order. */
  function Experiment(compare: ComparisonInput -> QueryComparison, query1: string, query2: string,
                      collections: seq<ComparisonParameterCollection>): seq<QueryComparison>
  {
    if collections == [] then []
    else
      Experiment(compare, query1, query2, collections[..|collections| - 1])
      + [compare(InputFor(query1, query2, collections[|collections| - 1]))]
  }

  /**
   * An experiment yields exactly one comparison per collection, and the i-th
   * is the comparator's answer for the i-th collection's parameters with the
   * unchanged queries.
   */
  lemma {:induction false} ExperimentAt(compare: ComparisonInput -> QueryComparison,
                                        query1: string, query2: string,
                                        collections: seq<ComparisonParameterCollection>)
    ensures |Experiment(compare, query1, query2, collections)| == |collections|
    ensures forall i :: 0 <= i < |collections| ==>
      Experiment(compare, query1, query2, collections)[i]
      == compare(ComparisonInput(query1, query2, collections[i].parameters))
  {
    if collections != [] {
      ExperimentAt(compare, query1, query2, collections[..|collections| - 1]);
    }
  }

  /**
   * Collections are independent: the experiment over two lists of
   * collections is the two experiments one after the other.
   */
  lemma {:induction false} ExperimentAppend(compare: ComparisonInput -> QueryComparison,
                                            query1: string, query2: string,
                                            first: seq<ComparisonParameterCollection>,
                                            second: seq<ComparisonParameterCollection>)
    ensures Experiment(compare, query1, query2, first + second)
      == Experiment(compare, query1, query2, first) + Experiment(compare, query1, query2, second)
  {
    if second == [] {
      assert first + second == first;
    } else {
      assert (first + second)[..|first + second| - 1] == first + second[..|second| - 1];
      ExperimentAppend(compare, query1, query2, first, second[..|second| - 1]);
    }
  }

  /** A scenario built with the parameterless constructor is compared with no parameters bound. */
  lemma DefaultCollectionBindsNothing(compare: ComparisonInput -> QueryComparison,
                                      query1: string, query2: string)
    ensures Experiment(compare, query1, query2, [DefaultCollection()])
      == [compare(ComparisonInput(query1, query2, []))]
  {
  }

  /** Runs a query pair against each parameter collection through one comparator. */
  class ExperimentRunner {
    const comparator: ComparisonInput -> QueryComparison

    constructor (comparator: ComparisonInput -> QueryComparison)
      ensures this.comparator == comparator
    {
      this.comparator := comparator;
    }

    /**
     * Compares query1 with query2 once per collection, in order, and returns
     * the comparisons in that order.
     */
    method RunExperiment(query1: string, query2: string,
                         parameterCollections: seq<ComparisonParameterCollection>)
      returns (result: ExperimentResult)
      ensures result.queryComparisons == Experiment(comparator, query1, query2, parameterCollections)
      ensures |result.queryComparisons| == |parameterCollections|
      ensures forall i :: 0 <= i < |parameterCollections| ==>
        result.queryComparisons[i]
        == comparator(ComparisonInput(query1, query2, parameterCollections[i].parameters))
    {
      var queryOutputs: seq<QueryComparison> := [];
      for k := 0 to |parameterCollections|
        invariant queryOutputs == Experiment(comparator, query1, query2, parameterCollections[..k])
      {
        var parameterCollection := parameterCollections[k];
        var output := comparator(ComparisonInput(query1, query2, parameterCollection.parameters));
        assert parameterCollections[..k + 1][..k] == parameterCollections[..k];
        queryOutputs := queryOutputs + [output];
      }
      assert parameterCollections[..|parameterCollections|] == parameterCollections;
      ExperimentAt(comparator, query1, query2, parameterCollections);
      return ExperimentResult(queryOutputs);
    }
  }
}
