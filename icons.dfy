/** The icon components (from the lucide icon set) that the display logic chooses between. */
module Icons {

  datatype Icon =
    | CheckCircle | InfoCircle | AlertTriangle | XCircle
    | Leaf | Skull
    | TrendingUp | TrendingDown | Minus
}
