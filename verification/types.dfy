/** Values shared by the modules: transactions, blocks and the decisions taken for a row of the DAG. */
module Types {

  datatype Option<+T> = None | Some(value: T)

  /** `mask` is the 16-bit routing key that a node derives from the hash. */
  datatype Tx = Tx(hash: string, mask: nat)

  /** The fields of a block that only its hash depends on. */
  datatype Stamp = Stamp(number: nat, createdAt: int, author: string, merkleRoot: string)

  /** A block owns the rows [row, row + 2^(D - depth)) of its column. The empty string stands for an absent
      parent link. */
  datatype Block = Block(
    hash: string,
    transactions: seq<Tx>,
    previousHash: string,
    secondHash: string,
    depth: nat,
    row: nat,
    col: nat,
    commitmentHash: string,
    stamp: Stamp)

  datatype Action = Split | SplitSnd | Merge | Continue | Skip

  datatype DagAction = DagAction(action: Action, parent: Option<Block>, second: Option<Block>)

  /** `maxDepth` is D, so DAG_PARALLEL_LEN is 2^D; the thresholds carry no relation to each other. */
  datatype Params = Params(maxDepth: nat, minTxToSplit: int, minTxToMerge: int, txPerBlock: nat)
}
