/** What the graph builder and the processors know of a constructed node (src/pipeline.rs). */
module Node {

  /** The kinds of data a node can be pulled for. */
  datatype Capability = ProvideAudioData | ProvideVideoFrame | ProvideSpectrum | ProvideNumber

  /** A shared handle on a constructed node: the name it was declared under (which stands for
      the identity of the shared cell), the capabilities it reports and whether it is a sink. */
  datatype NodeRef = NodeRef(name: string, capabilities: set<Capability>, sink: bool)

  /** Whether `node` can be pulled for `cap`. */
  function HasCapability(node: NodeRef, cap: Capability): bool
  {
    cap in node.capabilities
  }
}
