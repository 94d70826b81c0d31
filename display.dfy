/** The fitting of text into the fixed-width columns of DisplayResults. */
module Display {

  const DescriptionWidth := 25
  const CategoryWidth := 12

  /**
   * The description cell: fits in 25 characters, is the description itself
   * when that fits, and otherwise keeps its first 22 characters followed by "...".
   */
  function TruncateDescription(d: string): (r: string)
    ensures |r| <= DescriptionWidth
    ensures |d| <= DescriptionWidth <==> r == d
    ensures |d| > DescriptionWidth ==> |r| == DescriptionWidth && r[..22] == d[..22] && r[22..] == "..."
  {
    if |d| > DescriptionWidth then d[..22] + "..." else d
  }

  /**
   * The category cell: fits in 12 characters, is the category itself when
   * that fits, and otherwise keeps its first 10 characters followed by "..".
   */
  function TruncateCategory(c: string): (r: string)
    ensures |r| <= CategoryWidth
    ensures |c| <= CategoryWidth <==> r == c
    ensures |c| > CategoryWidth ==> |r| == CategoryWidth && r[..10] == c[..10] && r[10..] == ".."
  {
    if |c| > CategoryWidth then c[..10] + ".." else c
  }
}
